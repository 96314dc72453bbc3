/** `upgrade_dicts` of the ujson and orjson drivers
    (autodict/json_drivers/ujson.py, autodict/json_drivers/orjson.py): walk a
    decoded JSON value, replacing every dict at any depth by an AutoDict. */
module Upgrade {
  import opened Values

  /** What `upgrade_dicts(v)` returns: a dict becomes an AutoDict holding the
      same keys in the same order, each value upgraded; a list keeps its
      elements in order, each upgraded; anything else is returned as is. */
  function Upgraded(v: Value): Value
  {
    match v
    case Dict(_, es) => Dict(true, seq(|es|, i requires 0 <= i < |es| => (es[i].0, Upgraded(es[i].1))))
    case List(items) => List(seq(|items|, i requires 0 <= i < |items| => Upgraded(items[i])))
    case _ => v
  }

  /** Every dict inside `v`, `v` included, is an AutoDict. */
  predicate AllAuto(v: Value)
  {
    match v
    case Dict(isAuto, es) => isAuto && forall i :: 0 <= i < |es| ==> AllAuto(es[i].1)
    case List(items) => forall i :: 0 <= i < |items| ==> AllAuto(items[i])
    case _ => true
  }

  /** The upgrade loop. A dict's values are replaced one by one
      (`obj[k] = upgrade_dicts(v)`: with distinct keys this is the entry at
      the loop position), then the dict is wrapped as `AutoDict(obj)`; a
      list's elements are replaced one by one and the list is returned. */
  method UpgradeDicts(v: Value) returns (r: Value)
    ensures r == Upgraded(v)
    decreases v
  {
    match v
    case Dict(_, es) =>
      var obj := es;
      for i := 0 to |obj|
        invariant |obj| == |es|
        invariant forall j :: 0 <= j < i ==> obj[j] == (es[j].0, Upgraded(es[j].1))
        invariant forall j :: i <= j < |es| ==> obj[j] == es[j]
      {
        var u := UpgradeDicts(es[i].1);
        obj := obj[i := (obj[i].0, u)];
      }
      r := Dict(true, obj);
    case List(items) =>
      var obj := items;
      for i := 0 to |obj|
        invariant |obj| == |items|
        invariant forall j :: 0 <= j < i ==> obj[j] == Upgraded(items[j])
        invariant forall j :: i <= j < |items| ==> obj[j] == items[j]
      {
        var u := UpgradeDicts(items[i]);
        obj := obj[i := u];
      }
      r := List(obj);
    case _ =>
      r := v;
  }

  /** Writing a value at a loop position is `obj[k] = ...` for that
      position's key, because the keys are distinct. */
  lemma {:induction false} SetEntryAt(es: Entries, i: nat, u: Value)
    requires DistinctKeys(es) && i < |es|
    ensures SetEntry(es, es[i].0, u) == es[i := (es[i].0, u)]
  {
    KeysLength(es);
    if i > 0 {
      assert es[0].0 == Keys(es)[0] != Keys(es)[i] == es[i].0;
      assert DistinctKeys(es[1..]) by {
        KeysLength(es[1..]);
        assert forall a, b :: 0 <= a < b < |es[1..]| ==> Keys(es[1..])[a] == Keys(es)[a + 1] && Keys(es[1..])[b] == Keys(es)[b + 1];
      }
      SetEntryAt(es[1..], i - 1, u);
      assert es[i := (es[i].0, u)] == [es[0]] + es[1..][i - 1 := (es[i].0, u)];
    }
  }

  /** The shape `upgrade_dicts` promises at the top level: a dict gives an
      AutoDict with the same keys, each reading as its upgraded value; a
      list gives a list of the same length with each element upgraded; any
      other value comes back unchanged. */
  lemma UpgradeShape(v: Value)
    ensures v.Dict? ==> Upgraded(v).Dict? && Upgraded(v).isAuto && Keys(Upgraded(v).entries) == Keys(v.entries)
    ensures v.Dict? ==> forall k :: HasKey(v.entries, k) ==>
                          (HasKey(Upgraded(v).entries, k) && Lookup(Upgraded(v).entries, k) == Upgraded(Lookup(v.entries, k)))
    ensures v.List? ==> Upgraded(v).List? && |Upgraded(v).items| == |v.items|
    ensures v.List? ==> forall i :: 0 <= i < |v.items| ==> Upgraded(v).items[i] == Upgraded(v.items[i])
    ensures !v.Dict? && !v.List? ==> Upgraded(v) == v
  {
    if v.Dict? {
      var es := v.entries;
      var us := Upgraded(v).entries;
      KeysLength(es);
      KeysLength(us);
      forall k | HasKey(es, k)
        ensures HasKey(us, k) && Lookup(us, k) == Upgraded(Lookup(es, k))
      {
        MappedLookup(es, us, k);
      }
    }
  }

  /** Lookup commutes with mapping `Upgraded` over the values. */
  lemma {:induction false} MappedLookup(es: Entries, us: Entries, k: string)
    requires |us| == |es| && forall i :: 0 <= i < |es| ==> us[i] == (es[i].0, Upgraded(es[i].1))
    requires HasKey(es, k)
    ensures HasKey(us, k) && Lookup(us, k) == Upgraded(Lookup(es, k))
  {
    if es[0].0 != k {
      MappedLookup(es[1..], us[1..], k);
    }
  }

  /** After `upgrade_dicts`, every dict at any depth is an AutoDict. */
  lemma {:induction false} UpgradedAllAuto(v: Value)
    ensures AllAuto(Upgraded(v))
  {
    match v
    case Dict(_, es) =>
      forall i | 0 <= i < |es| { UpgradedAllAuto(es[i].1); }
    case List(items) =>
      forall i | 0 <= i < |items| { UpgradedAllAuto(items[i]); }
    case _ =>
  }

  /** A value whose dicts are all AutoDicts already is left as it is. */
  lemma {:induction false} UpgradeFixpoint(v: Value)
    requires AllAuto(v)
    ensures Upgraded(v) == v
  {
    match v
    case Dict(_, es) =>
      forall i | 0 <= i < |es| ensures Upgraded(es[i].1) == es[i].1 { UpgradeFixpoint(es[i].1); }
      assert Upgraded(v).entries == es;
    case List(items) =>
      forall i | 0 <= i < |items| ensures Upgraded(items[i]) == items[i] { UpgradeFixpoint(items[i]); }
      assert Upgraded(v).items == items;
    case _ =>
  }

  /** Upgrading twice is upgrading once. */
  lemma UpgradeIdempotent(v: Value)
    ensures Upgraded(Upgraded(v)) == Upgraded(v)
  {
    UpgradedAllAuto(v);
    UpgradeFixpoint(Upgraded(v));
  }

  /** The upgraded value compares equal (`==`) to the original: only the
      dict class changes, never a key, a value or an order. */
  lemma {:induction false} UpgradeKeepsEquality(v: Value)
    ensures Plain(Upgraded(v)) == Plain(v)
  {
    match v
    case Dict(_, es) =>
      forall i | 0 <= i < |es| ensures Plain(Upgraded(es[i].1)) == Plain(es[i].1) { UpgradeKeepsEquality(es[i].1); }
      assert Plain(Upgraded(v)).entries == Plain(v).entries;
    case List(items) =>
      forall i | 0 <= i < |items| ensures Plain(Upgraded(items[i])) == Plain(items[i]) { UpgradeKeepsEquality(items[i]); }
      assert Plain(Upgraded(v)).items == Plain(v).items;
    case _ =>
  }
}
