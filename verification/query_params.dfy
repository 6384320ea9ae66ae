/** The builder's and the built request's query-parameter map: a
    `LinkedHashMap<String, List<String>>`, i.e. distinct names kept in
    insertion order, where re-putting a name keeps its original position. */
module QueryParams {
  import opened Wrappers

  datatype Param = Param(name: string, values: seq<string>)

  predicate DistinctNames(ps: seq<Param>)
  {
    forall j, k :: 0 <= j < k < |ps| ==> ps[j].name != ps[k].name
  }

  /** An insertion-ordered map: no name occurs twice. */
  type Params = ps: seq<Param> | DistinctNames(ps) witness []

  /** The parameter names in iteration (insertion) order. */
  function Names(ps: seq<Param>): (ns: seq<string>)
    ensures |ns| == |ps|
    ensures forall k :: 0 <= k < |ps| ==> ns[k] == ps[k].name
  {
    seq(|ps|, k requires 0 <= k < |ps| => ps[k].name)
  }

  lemma NamesCons(p: Param, t: seq<Param>)
    ensures Names([p] + t) == [p.name] + Names(t)
  {
  }

  lemma ConsDistinct(p: Param, t: Params)
    requires p.name !in Names(t)
    ensures DistinctNames([p] + t)
  {
    var r := [p] + t;
    forall j, k | 0 <= j < k < |r|
      ensures r[j].name != r[k].name
    {
      if j == 0 {
        assert r[k].name == Names(t)[k - 1];
      } else {
        assert r[j] == t[j - 1] && r[k] == t[k - 1];
      }
    }
  }

  lemma TailDistinct(ps: Params)
    requires ps != []
    ensures DistinctNames(ps[1..])
    ensures ps[0].name !in Names(ps[1..])
  {
  }

  /** `Map.get`: the values stored under `name`, or null. */
  function Get(ps: Params, name: string): (v: Option<seq<string>>)
    ensures v.None? <==> name !in Names(ps)
    decreases |ps|
  {
    if ps == [] then None
    else if ps[0].name == name then Some(ps[0].values)
    else
      NamesCons(ps[0], ps[1..]);
      assert ps == [ps[0]] + ps[1..];
      Get(ps[1..], name)
  }

  lemma GetCons(p: Param, t: Params, n: string)
    requires DistinctNames([p] + t)
    ensures Get([p] + t, n) == if p.name == n then Some(p.values) else Get(t, n)
  {
    assert ([p] + t)[1..] == t;
  }

  /** In a map with distinct names, the entry at position `k` is what `Get`
      finds under its name. */
  lemma {:induction false} GetAt(ps: Params, k: nat)
    requires k < |ps|
    ensures Get(ps, ps[k].name) == Some(ps[k].values)
    decreases |ps|
  {
    if k > 0 {
      TailDistinct(ps);
      GetAt(ps[1..], k - 1);
      assert ps == [ps[0]] + ps[1..];
      GetCons(ps[0], ps[1..], ps[k].name);
    }
  }

  /** `LinkedHashMap.put`: a new name goes last, an existing one is
      replaced where it stands. */
  function Put(ps: Params, name: string, values: seq<string>): (r: Params)
    ensures Names(r) == if name in Names(ps) then Names(ps) else Names(ps) + [name]
    decreases |ps|
  {
    if ps == [] then [Param(name, values)]
    else if ps[0].name == name then
      var p := Param(name, values);
      NamesCons(p, ps[1..]);
      NamesCons(ps[0], ps[1..]);
      assert ps == [ps[0]] + ps[1..];
      ConsDistinct(p, ps[1..]);
      [p] + ps[1..]
    else
      var tail := Put(ps[1..], name, values);
      NamesCons(ps[0], tail);
      NamesCons(ps[0], ps[1..]);
      assert ps == [ps[0]] + ps[1..];
      ConsDistinct(ps[0], tail);
      [ps[0]] + tail
  }

  /** After `Put`, the name maps to the new values and every other name
      keeps its entry. */
  lemma {:induction false} PutGet(ps: Params, name: string, values: seq<string>, n: string)
    ensures Get(Put(ps, name, values), n) == if n == name then Some(values) else Get(ps, n)
    decreases |ps|
  {
    var r := Put(ps, name, values);
    if ps == [] {
      assert r == [Param(name, values)];
    } else {
      assert ps == [ps[0]] + ps[1..];
      GetCons(ps[0], ps[1..], n);
      if ps[0].name == name {
        assert r == [Param(name, values)] + ps[1..];
        GetCons(Param(name, values), ps[1..], n);
      } else {
        var tail := Put(ps[1..], name, values);
        assert r == [ps[0]] + tail;
        GetCons(ps[0], tail, n);
        PutGet(ps[1..], name, values, n);
      }
    }
  }

  /** `LinkedHashMap.remove`: drops the entry for `name`, keeping the order
      of the others. */
  function Remove(ps: Params, name: string): (r: Params)
    ensures Names(r) == RemovedNames(Names(ps), name)
    decreases |ps|
  {
    if ps == [] then []
    else if ps[0].name == name then
      NamesCons(ps[0], ps[1..]);
      assert ps == [ps[0]] + ps[1..];
      Remove(ps[1..], name)
    else
      var tail := Remove(ps[1..], name);
      NamesCons(ps[0], tail);
      NamesCons(ps[0], ps[1..]);
      assert ps == [ps[0]] + ps[1..];
      RemovedNamesExclude(Names(ps[1..]), name, ps[0].name);
      ConsDistinct(ps[0], tail);
      [ps[0]] + tail
  }

  /** The names left once `name` is dropped, in their original order. */
  function RemovedNames(ns: seq<string>, name: string): seq<string>
  {
    if ns == [] then []
    else if ns[0] == name then RemovedNames(ns[1..], name)
    else [ns[0]] + RemovedNames(ns[1..], name)
  }

  lemma {:induction false} RemovedNamesExclude(ns: seq<string>, name: string, x: string)
    requires x !in ns
    ensures x !in RemovedNames(ns, name)
    decreases |ns|
  {
    if ns != [] {
      RemovedNamesExclude(ns[1..], name, x);
    }
  }

  /** Removing an absent name changes nothing. */
  lemma {:induction false} RemoveAbsent(ps: Params, name: string)
    requires name !in Names(ps)
    ensures Remove(ps, name) == ps
    decreases |ps|
  {
    if ps != [] {
      TailDistinct(ps);
      NamesCons(ps[0], ps[1..]);
      assert ps == [ps[0]] + ps[1..];
      RemoveAbsent(ps[1..], name);
    }
  }

  /** Removing a name that is present splices out exactly its entry. */
  lemma {:induction false} RemoveSplices(ps: Params, name: string, k: nat)
    requires k < |ps| && ps[k].name == name
    ensures Remove(ps, name) == ps[..k] + ps[k + 1..]
    decreases |ps|
  {
    TailDistinct(ps);
    NamesCons(ps[0], ps[1..]);
    assert ps == [ps[0]] + ps[1..];
    if k == 0 {
      RemoveAbsent(ps[1..], name);
      assert ps[..0] + ps[1..] == ps[1..];
    } else {
      var t := ps[1..];
      var tail := Remove(t, name);
      RemoveSplices(t, name, k - 1);
      assert tail == t[..k - 1] + t[k..];
      assert Remove(ps, name) == [ps[0]] + tail;
      SpliceCons(ps, k);
    }
  }

  lemma SpliceCons<T>(s: seq<T>, k: nat)
    requires 0 < k < |s|
    ensures s[..k] + s[k + 1..] == [s[0]] + (s[1..][..k - 1] + s[1..][k..])
  {
    assert s[..k] == [s[0]] + s[1..][..k - 1];
    assert s[k + 1..] == s[1..][k..];
  }

  /** After `Remove`, the name is absent and every other name keeps its
      entry. */
  lemma {:induction false} RemoveGet(ps: Params, name: string, n: string)
    ensures Get(Remove(ps, name), n) == if n == name then None else Get(ps, n)
    decreases |ps|
  {
    if ps != [] {
      TailDistinct(ps);
      RemoveGet(ps[1..], name, n);
      assert ps == [ps[0]] + ps[1..];
      GetCons(ps[0], ps[1..], n);
      if ps[0].name != name {
        var tail := Remove(ps[1..], name);
        assert Remove(ps, name) == [ps[0]] + tail;
        GetCons(ps[0], tail, n);
      }
    }
  }

  /** The facts about `Remove` gathered for callers. */
  lemma RemoveSpec(ps: Params, name: string)
    ensures forall n :: Get(Remove(ps, name), n) == if n == name then None else Get(ps, n)
    ensures forall k :: 0 <= k < |ps| && ps[k].name == name ==> Remove(ps, name) == ps[..k] + ps[k + 1..]
    ensures name !in Names(ps) ==> Remove(ps, name) == ps
  {
    forall n
      ensures Get(Remove(ps, name), n) == if n == name then None else Get(ps, n)
    {
      RemoveGet(ps, name, n);
    }
    forall k | 0 <= k < |ps| && ps[k].name == name
      ensures Remove(ps, name) == ps[..k] + ps[k + 1..]
    {
      RemoveSplices(ps, name, k);
    }
    if name !in Names(ps) {
      RemoveAbsent(ps, name);
    }
  }
}
