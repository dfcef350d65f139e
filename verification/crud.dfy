/**
 * The record operations every model inherits from `CRUDMixin`: `create`
 * stores a new row under a fresh id, `update` assigns keyword attributes on an
 * instance; both hand back the instance itself.
 */
module Crud {

  /** An instance together with whether the call committed it. */
  datatype Saved<T> = Saved(instance: T, committed: bool)

  /** A table after `create`: the rows, the stored instance and its id. */
  datatype Created<T> = Created(rows: seq<T>, instance: T, id: nat)

  /** `Model.create(**kwargs)`: construct, `save()` (which commits) and return the instance. */
  function Create<T>(rows: seq<T>, row: T): (r: Created<T>)
    ensures r.instance == row
    ensures r.id == |rows| && |r.rows| == |rows| + 1 && r.rows[r.id] == row
    ensures r.rows[..|rows|] == rows
  {
    Created(rows + [row], row, |rows|)
  }

  /** Keyword arguments as Python delivers them: a dict, so no name twice. */
  predicate DistinctNames<V>(kwargs: seq<(string, V)>) {
    forall i, j | 0 <= i < j < |kwargs| :: kwargs[i].0 != kwargs[j].0
  }

  /** The attribute names among the keyword arguments. */
  function NamesOf<V>(kwargs: seq<(string, V)>): set<string> {
    set i | 0 <= i < |kwargs| :: kwargs[i].0
  }

  /** `setattr(self, attr, value)` for each keyword argument in turn. */
  function SetAttributes<V>(attrs: map<string, V>, kwargs: seq<(string, V)>): (r: map<string, V>)
    requires DistinctNames(kwargs)
    ensures r.Keys == attrs.Keys + NamesOf(kwargs)
    ensures forall i | 0 <= i < |kwargs| :: r[kwargs[i].0] == kwargs[i].1
    ensures forall n | n in attrs && n !in NamesOf(kwargs) :: r[n] == attrs[n]
    decreases |kwargs|
  {
    if |kwargs| == 0 then attrs
    else
      var rest := SetAttributes(attrs[kwargs[0].0 := kwargs[0].1], kwargs[1..]);
      assert forall i | 1 <= i < |kwargs| :: kwargs[1..][i - 1] == kwargs[i];
      rest
  }

  /**
   * `instance.update(commit, **kwargs)`: `commit and self.save() or self` is
   * the instance on both paths, since `save` returns it.
   */
  function Update<V>(attrs: map<string, V>, kwargs: seq<(string, V)>, commit: bool): (r: Saved<map<string, V>>)
    requires DistinctNames(kwargs)
    ensures r.committed == commit
    ensures r.instance.Keys == attrs.Keys + NamesOf(kwargs)
    ensures forall i | 0 <= i < |kwargs| :: r.instance[kwargs[i].0] == kwargs[i].1
    ensures forall n | n in attrs && n !in NamesOf(kwargs) :: r.instance[n] == attrs[n]
  {
    Saved(SetAttributes(attrs, kwargs), commit)
  }

  /** Records holding the given keyword values and keeping every other attribute. */
  ghost predicate AssignsExactly<V>(attrs: map<string, V>, kwargs: seq<(string, V)>, m: map<string, V>) {
    && m.Keys == attrs.Keys + NamesOf(kwargs)
    && (forall i | 0 <= i < |kwargs| :: m[kwargs[i].0] == kwargs[i].1)
    && (forall n | n in attrs && n !in NamesOf(kwargs) :: m[n] == attrs[n])
  }

  /** Two such records agree on one attribute. */
  lemma AgreeAt<V>(attrs: map<string, V>, kwargs: seq<(string, V)>, m1: map<string, V>, m2: map<string, V>, n: string)
    requires AssignsExactly(attrs, kwargs, m1) && AssignsExactly(attrs, kwargs, m2)
    requires n in m1
    ensures n in m2 && m1[n] == m2[n]
  {
    if n in NamesOf(kwargs) {
      var i :| 0 <= i < |kwargs| && kwargs[i].0 == n;
      assert m1[kwargs[i].0] == kwargs[i].1 == m2[kwargs[i].0];
    }
  }

  /**
   * The instance `update` returns is determined by the attributes alone:
   * whatever the `commit` flag, any record that holds exactly the given
   * keyword values and keeps every other attribute is that instance.
   */
  lemma UpdateIsExact<V>(attrs: map<string, V>, kwargs: seq<(string, V)>, commit: bool, m: map<string, V>)
    requires DistinctNames(kwargs)
    requires AssignsExactly(attrs, kwargs, m)
    ensures Update(attrs, kwargs, commit).instance == m
  {
    var u := Update(attrs, kwargs, commit).instance;
    assert AssignsExactly(attrs, kwargs, u);
    forall n | n in m
      ensures n in u && u[n] == m[n]
    {
      AgreeAt(attrs, kwargs, m, u, n);
    }
    assert u.Keys == m.Keys;
  }
}
