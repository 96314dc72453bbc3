/** The AutoDict of autodict/implementation.py: a dict whose missing keys
    spring into existence as new, empty AutoDicts when read, and its
    multi-level membership test `contains`, which never creates anything. */
module AutoDicts {
  import opened Values

  /** The right operand of `x in d`: a single key, or a Python list of keys. */
  datatype Query = Key(key: string) | KeyList(keys: seq<string>)

  /** What is searched for past an AutoDict boundary: the one remaining key,
      or the tuple of every remaining key. */
  datatype Needle = One(key: string) | Tuple(keys: seq<string>)

  /** Python's `k in s` on two strings: `k` occurs somewhere in `s`. */
  predicate IsSubstring(k: string, s: string)
  {
    k <= s || (s != [] && IsSubstring(k, s[1..]))
  }

  /** Python's native `needle in container` for a value that is not an
      AutoDict: a dict is searched by key, a list by element and a string by
      substring. No key or element is ever a tuple, a tuple is not a valid
      left operand for a string, and no other value supports `in`. */
  function NativeIn(container: Value, needle: Needle): Result<bool>
  {
    match container
    case Dict(_, es) => Ok(needle.One? && HasKey(es, needle.key))
    case List(items) => Ok(needle.One? && Str(needle.key) in items)
    case Str(s) => if needle.One? then Ok(IsSubstring(needle.key, s)) else Err(TypeError)
    case _ => Err(TypeError)
  }

  /** `d.contains(*keys)`. `keys[0]` fails on no keys; one key is plain
      membership; an absent first key gives false; an AutoDict child answers
      for the remaining keys; any other child is asked natively for the one
      remaining key, or for the tuple of the remaining keys. */
  function Contains(es: Entries, keys: seq<string>): (r: Result<bool>)
    ensures r == Err(IndexError) <==> keys == []
    ensures r.Err? && keys != [] ==> |keys| >= 2 && r.error == TypeError
    decreases |keys|
  {
    if keys == [] then Err(IndexError)
    else if |keys| == 1 then Ok(HasKey(es, keys[0]))
    else if !HasKey(es, keys[0]) then Ok(false)
    else
      var rest := keys[1..];
      match Lookup(es, keys[0])
      case Dict(true, sub) => Contains(sub, rest)
      case obj => NativeIn(obj, if |rest| == 1 then One(rest[0]) else Tuple(rest))
  }

  /** `x in d`: a list is a key path handed to `contains`, anything else is
      looked up as a key. */
  function In(es: Entries, q: Query): (r: Result<bool>)
    ensures q.Key? ==> r.Ok? && (r.value <==> HasKey(es, q.key))
    ensures r.Err? ==> q.KeyList?
    ensures r == Err(IndexError) <==> q == KeyList([])
  {
    match q
    case KeyList(keys) => Contains(es, keys)
    case Key(k) => Ok(HasKey(es, k))
  }

  /** The cases of `contains` one level down. */
  lemma ContainsCases(es: Entries, k: string, rest: seq<string>)
    ensures rest == [] ==> Contains(es, [k]) == Ok(HasKey(es, k))
    ensures rest != [] && !HasKey(es, k) ==> Contains(es, [k] + rest) == Ok(false)
    ensures rest != [] && HasKey(es, k) && Lookup(es, k).Dict? && Lookup(es, k).isAuto ==>
      Contains(es, [k] + rest) == Contains(Lookup(es, k).entries, rest)
    ensures rest != [] && HasKey(es, k) && !(Lookup(es, k).Dict? && Lookup(es, k).isAuto) ==>
      Contains(es, [k] + rest) == NativeIn(Lookup(es, k), if |rest| == 1 then One(rest[0]) else Tuple(rest))
  {
    assert ([k] + rest)[0] == k && ([k] + rest)[1..] == rest;
  }

  predicate IsAutoDict(v: Value)
  {
    v.Dict? && v.isAuto
  }

  /** Reference definition of a nested path: the value reached by following
      `keys` through AutoDicts only, without creating anything; `None` when a
      key is absent or the path leaves the AutoDicts before its last key. */
  function Resolve(es: Entries, keys: seq<string>): Option<Value>
    decreases |keys|
  {
    if keys == [] then Some(Dict(true, es))
    else if !HasKey(es, keys[0]) then None
    else
      match Lookup(es, keys[0])
      case Dict(true, sub) => Resolve(sub, keys[1..])
      case v => if |keys| == 1 then Some(v) else None
  }

  /** A one-key path reads the key itself, whatever it holds. */
  lemma ResolveOne(es: Entries, k: string)
    ensures Resolve(es, [k]) == if HasKey(es, k) then Some(Lookup(es, k)) else None
  {
    assert [k][0] == k && [k][1..] == [];
  }

  /** Every key of `keys` but the last names an AutoDict where it is present. */
  predicate AutoPath(es: Entries, keys: seq<string>)
    decreases |keys|
  {
    |keys| <= 1 || !HasKey(es, keys[0]) ||
    match Lookup(es, keys[0])
    case Dict(true, sub) => AutoPath(sub, keys[1..])
    case _ => false
  }

  /** `contains` finds what the reference path lookup finds, and on a path
      that stays inside AutoDicts it finds exactly that. */
  lemma {:induction false} ContainsResolve(es: Entries, keys: seq<string>)
    requires keys != []
    ensures Resolve(es, keys).Some? ==> Contains(es, keys) == Ok(true)
    ensures AutoPath(es, keys) ==> Contains(es, keys) == Ok(Resolve(es, keys).Some?)
    decreases |keys|
  {
    if |keys| > 1 && HasKey(es, keys[0]) {
      match Lookup(es, keys[0])
      case Dict(true, sub) => ContainsResolve(sub, keys[1..]);
      case _ =>
    }
  }

  /** Reading `obj[k]`: the container after the read and the value read. A
      miss on an AutoDict runs `__missing__`, which stores a new empty
      AutoDict at `k` and returns it; a miss on a plain dict raises KeyError;
      a string key does not index any other value. */
  function ReadItem(obj: Value, k: string): Result<(Value, Value)>
  {
    match obj
    case Dict(isAuto, es) =>
      if HasKey(es, k) then Ok((obj, Lookup(es, k)))
      else if isAuto then Ok((Dict(true, SetEntry(es, k, EmptyAuto)), EmptyAuto))
      else Err(KeyError)
    case _ => Err(TypeError)
  }

  /** `obj[k] = v`: only a dict takes a string key. */
  function WriteItem(obj: Value, k: string, v: Value): Result<Value>
  {
    match obj
    case Dict(isAuto, es) => Ok(Dict(isAuto, SetEntry(es, k, v)))
    case _ => Err(TypeError)
  }

  /** The statement `obj[k1]...[kn] = v`: read k1 .. k(n-1) in turn, then
      assign at kn. Each value read is the object stored in its parent, so
      the change made below is stored back at each level. An error can only
      come from a value that was already there (a fresh AutoDict accepts any
      path), so a failed statement leaves `obj` as it was. */
  function AssignPath(obj: Value, keys: seq<string>, v: Value): (r: Result<Value>)
    requires keys != []
    ensures r.Ok? ==> obj.Dict? && r.value.Dict? && r.value.isAuto == obj.isAuto
    decreases |keys|
  {
    if |keys| == 1 then WriteItem(obj, keys[0], v)
    else
      match ReadItem(obj, keys[0])
      case Err(e) => Err(e)
      case Ok((obj', child)) =>
        match AssignPath(child, keys[1..], v)
        case Err(e) => Err(e)
        case Ok(child') => WriteItem(obj', keys[0], child')
  }

  /** `d[k1]...[kn] = v` on an AutoDict whose path holds only AutoDicts (or
      nothing yet) succeeds; afterwards the path leads through AutoDicts at
      every intermediate level to `v`, and every other top-level key is as it
      was. */
  lemma {:induction false} AssignPathResolves(es: Entries, keys: seq<string>, v: Value)
    requires keys != [] && AutoPath(es, keys)
    ensures AssignPath(Dict(true, es), keys, v).Ok?
    ensures var r := AssignPath(Dict(true, es), keys, v).value;
      && AutoPath(r.entries, keys)
      && Resolve(r.entries, keys) == Some(v)
      && (forall i :: 0 < i < |keys| ==> Resolve(r.entries, keys[..i]).Some? &&
                                         IsAutoDict(Resolve(r.entries, keys[..i]).value))
      && (forall k :: k != keys[0] ==> (HasKey(r.entries, k) <==> HasKey(es, k)))
      && (forall k :: k != keys[0] && HasKey(es, k) ==> Lookup(r.entries, k) == Lookup(es, k))
    decreases |keys|
  {
    var k := keys[0];
    if |keys| == 1 {
      forall k2 {
        SetEntryLookup(es, k, v, k2);
      }
      var es' := SetEntry(es, k, v);
      assert Lookup(es', k) == v;
    } else {
      var rest := keys[1..];
      var sub, es1: Entries;
      if HasKey(es, k) {
        sub := Lookup(es, k).entries;
        es1 := es;
      } else {
        sub := [];
        es1 := SetEntry(es, k, EmptyAuto);
        forall k2 {
          SetEntryLookup(es, k, EmptyAuto, k2);
        }
      }
      assert ReadItem(Dict(true, es), k) == Ok((Dict(true, es1), Dict(true, sub)));
      AssignPathResolves(sub, rest, v);
      var sub' := AssignPath(Dict(true, sub), rest, v).value;
      var es' := SetEntry(es1, k, sub');
      assert AssignPath(Dict(true, es), keys, v) == Ok(Dict(true, es'));
      forall k2 {
        SetEntryLookup(es1, k, sub', k2);
      }
      assert Lookup(es', k) == sub';
      forall i | 0 < i < |keys|
        ensures Resolve(es', keys[..i]).Some? && IsAutoDict(Resolve(es', keys[..i]).value)
      {
        assert keys[..i][0] == k && keys[..i][1..] == rest[..i - 1];
      }
    }
  }

  /** The frame of `d[k1]...[kn] = v` below the top level: at every level
      along the path, each key other than the one the path takes there (a
      sibling) reads as it did before, or stays absent. */
  lemma {:induction false} AssignPathFrame(es: Entries, keys: seq<string>, v: Value)
    requires keys != [] && AutoPath(es, keys)
    ensures AssignPath(Dict(true, es), keys, v).Ok?
    ensures var r := AssignPath(Dict(true, es), keys, v).value;
      forall j, k :: 0 <= j < |keys| && k != keys[j] ==>
        Resolve(r.entries, keys[..j] + [k]) == Resolve(es, keys[..j] + [k])
    decreases |keys|
  {
    AssignPathResolves(es, keys, v);
    var es' := AssignPath(Dict(true, es), keys, v).value.entries;
    var k := keys[0];
    if |keys| == 1 {
      forall j, k2 | 0 <= j < |keys| && k2 != keys[j]
        ensures Resolve(es', keys[..j] + [k2]) == Resolve(es, keys[..j] + [k2])
      {
        assert keys[..j] + [k2] == [k2];
        ResolveOne(es', k2);
        ResolveOne(es, k2);
      }
    } else {
      var rest := keys[1..];
      var sub, es1: Entries;
      if HasKey(es, k) {
        sub := Lookup(es, k).entries;
        es1 := es;
      } else {
        sub := [];
        es1 := SetEntry(es, k, EmptyAuto);
      }
      assert ReadItem(Dict(true, es), k) == Ok((Dict(true, es1), Dict(true, sub)));
      AssignPathFrame(sub, rest, v);
      var sub' := AssignPath(Dict(true, sub), rest, v).value;
      assert es' == SetEntry(es1, k, sub');
      SetEntryLookup(es1, k, sub', k);
      assert Lookup(es', k) == sub';
      forall j, k2 | 0 <= j < |keys| && k2 != keys[j]
        ensures Resolve(es', keys[..j] + [k2]) == Resolve(es, keys[..j] + [k2])
      {
        if j == 0 {
          assert keys[..j] + [k2] == [k2];
          ResolveOne(es', k2);
          ResolveOne(es, k2);
        } else {
          var p := rest[..j - 1] + [k2];
          assert keys[..j] + [k2] == [k] + p;
          assert ([k] + p)[0] == k && ([k] + p)[1..] == p;
          assert rest[j - 1] == keys[j];
          assert Resolve(es', [k] + p) == Resolve(sub'.entries, p);
          if HasKey(es, k) {
            assert Resolve(es, [k] + p) == Resolve(sub, p);
          } else {
            assert Resolve(sub, p) == None;
          }
        }
      }
    }
  }

  /** Nested assignment keeps the keys of the dict it is made on distinct. */
  lemma AssignPathDistinct(obj: Value, keys: seq<string>, v: Value)
    requires keys != [] && obj.Dict? && DistinctKeys(obj.entries)
    ensures AssignPath(obj, keys, v).Ok? ==> DistinctKeys(AssignPath(obj, keys, v).value.entries)
  {
    var k := keys[0];
    SetEntryDistinct(obj.entries, k, v);
    SetEntryDistinct(obj.entries, k, EmptyAuto);
    if |keys| > 1 {
      match ReadItem(obj, k)
      case Err(_) =>
      case Ok((obj', child)) =>
        match AssignPath(child, keys[1..], v)
        case Err(_) =>
        case Ok(child') => SetEntryDistinct(obj'.entries, k, child');
    }
  }

  /** After `d[k1]...[kn] = v` on such a path, `d.contains(k1, ..., kn)`
      is true. */
  lemma AssignPathContains(es: Entries, keys: seq<string>, v: Value)
    requires keys != [] && AutoPath(es, keys)
    ensures AssignPath(Dict(true, es), keys, v).Ok?
    ensures Contains(AssignPath(Dict(true, es), keys, v).value.entries, keys) == Ok(true)
  {
    AssignPathResolves(es, keys, v);
    ContainsResolve(AssignPath(Dict(true, es), keys, v).value.entries, keys);
  }

  /** An AutoDict object. Its children are values held in `entries`. */
  class AutoDict {
    var entries: Entries

    /** Like every Python dict, the keys are distinct. */
    ghost predicate Valid()
      reads this
    {
      DistinctKeys(entries)
    }

    /** `AutoDict(d)`; `AutoDict()` is the case `init == []`. */
    constructor (init: Entries)
      requires DistinctKeys(init)
      ensures Valid() && entries == init
    {
      entries := init;
    }

    /** `__missing__(key)`: store a new AutoDict at `key` and return it. */
    method Missing(key: string) returns (value: Value)
      requires Valid()
      modifies this
      ensures Valid()
      ensures value == EmptyAuto
      ensures entries == SetEntry(old(entries), key, EmptyAuto)
    {
      SetEntryDistinct(entries, key, EmptyAuto);
      value := EmptyAuto;
      entries := SetEntry(entries, key, value);
    }

    /** Reading `self[key]`: the stored value, or on a miss the new empty
      AutoDict that `__missing__` appends. Either way `key` is then present
      and holds the value returned, and no other entry changes. */
    method GetItem(key: string) returns (value: Value)
      requires Valid()
      modifies this
      ensures Valid()
      ensures HasKey(old(entries), key) ==> entries == old(entries) && value == Lookup(old(entries), key)
      ensures !HasKey(old(entries), key) ==> entries == old(entries) + [(key, EmptyAuto)] && value == EmptyAuto
      ensures HasKey(entries, key) && Lookup(entries, key) == value
    {
      if HasKey(entries, key) {
        value := Lookup(entries, key);
      } else {
        SetEntryAbsent(entries, key, EmptyAuto);
        SetEntryLookup(entries, key, EmptyAuto, key);
        value := Missing(key);
      }
    }

    /** `self[key] = value`. */
    method SetItem(key: string, value: Value)
      requires Valid()
      modifies this
      ensures Valid()
      ensures entries == SetEntry(old(entries), key, value)
    {
      SetEntryDistinct(entries, key, value);
      entries := SetEntry(entries, key, value);
    }

    /** The statement `self[k1]...[kn] = value`; `raised` is the exception it
      raises, in which case nothing changes. */
    method Assign(keys: seq<string>, value: Value) returns (raised: Option<PyError>)
      requires keys != [] && Valid()
      modifies this
      ensures Valid()
      ensures var r := AssignPath(Dict(true, old(entries)), keys, value);
        && (r.Ok? ==> raised == None && entries == r.value.entries)
        && (r.Err? ==> raised == Some(r.error) && entries == old(entries))
    {
      var r := AssignPath(Dict(true, entries), keys, value);
      AssignPathDistinct(Dict(true, entries), keys, value);
      if r.Ok? {
        entries := r.value.entries;
        raised := None;
      } else {
        raised := Some(r.error);
      }
    }
  }

  /** tests/test_autodict.py, test_missing_children: a key is not in a fresh
      AutoDict; after `d[key][key][key] = value`, `d[key]` and `d[key][key]`
      are AutoDicts and `d[key][key][key]` is `value`. */
  method MissingChildrenScenario(key: string, value: string)
    returns (inBefore: Result<bool>, level1: Value, level2: Value, leaf: Value)
    ensures inBefore == Ok(false)
    ensures IsAutoDict(level1) && IsAutoDict(level2)
    ensures leaf == Str(value)
  {
    var d := new AutoDict([]);
    inBefore := In(d.entries, Key(key));
    var path := [key, key, key];
    AssignPathResolves([], path, Str(value));
    var raised := d.Assign(path, Str(value));
    assert path[..1] == [key] && path[..2] == [key, key];
    assert path[1..] == [key, key] && [key, key][1..] == [key];
    var es := d.entries;
    assert Resolve(es, [key]).Some? && IsAutoDict(Resolve(es, [key]).value);
    level1 := d.GetItem(key);
    var sub1 := level1.entries;
    assert Resolve(es, [key, key]) == Resolve(sub1, [key]);
    level2 := Lookup(sub1, key);
    var sub2 := level2.entries;
    assert Resolve(es, path) == Resolve(sub2, [key]) == Some(Str(value));
    ResolveOne(sub2, key);
    leaf := Lookup(sub2, key);
  }

  /** Two levels assigned below a fresh AutoDict. */
  lemma FreshPath(k1: string, k2: string, v: Value)
    ensures AssignPath(EmptyAuto, [k1, k2], v) == Ok(Dict(true, [(k1, Dict(true, [(k2, v)]))]))
  {
    var inner := Dict(true, [(k2, v)]);
    assert AssignPath(EmptyAuto, [k2], v) == Ok(inner);
    assert [k1, k2][1..] == [k2];
    assert ReadItem(EmptyAuto, k1) == Ok((Dict(true, [(k1, EmptyAuto)]), EmptyAuto));
    assert [(k1, EmptyAuto)][1..] == [];
    assert SetEntry([(k1, EmptyAuto)], k1, inner) == [(k1, inner)] + [] == [(k1, inner)];
    assert WriteItem(Dict(true, [(k1, EmptyAuto)]), k1, inner) == Ok(Dict(true, [(k1, inner)]));
    assert [k1, k2][0] == k1 && |[k1, k2]| == 2;
  }

  /** The dict test_contains builds: `{key: {key: value}}` (a plain inner
      dict) after `d[section][section][key] = value`. */
  function ContainsFixture(section: string, key: string, value: string): Entries
  {
    [(key, Dict(false, [(key, Str(value))])), (section, Dict(true, [(section, Dict(true, [(key, Str(value))]))]))]
  }

  lemma AssignFixture(section: string, key: string, value: string)
    requires section != key
    ensures AssignPath(Dict(true, [(key, Dict(false, [(key, Str(value))]))]), [section, section, key], Str(value))
         == Ok(Dict(true, ContainsFixture(section, key, value)))
  {
    var plain := Dict(false, [(key, Str(value))]);
    var es0 := [(key, plain)];
    var middle := Dict(true, [(section, Dict(true, [(key, Str(value))]))]);
    FreshPath(section, key, Str(value));
    assert [section, section, key][1..] == [section, key];
    assert Keys(es0) == [key] by { assert es0[1..] == []; }
    SetEntryAbsent(es0, section, EmptyAuto);
    var es1 := es0 + [(section, EmptyAuto)];
    assert ReadItem(Dict(true, es0), section) == Ok((Dict(true, es1), EmptyAuto));
    assert es1[1..] == [(section, EmptyAuto)];
    assert [(section, EmptyAuto)][1..] == [];
    assert SetEntry([(section, EmptyAuto)], section, middle) == [(section, middle)];
    assert SetEntry(es1, section, middle) == [(key, plain)] + [(section, middle)];
    assert [(key, plain)] + [(section, middle)] == ContainsFixture(section, key, value);
    assert [section, section, key][0] == section && |[section, section, key]| == 3;
    assert AssignPath(EmptyAuto, [section, key], Str(value)) == Ok(middle);
  }

  /** The shape of that dict, one level down. */
  lemma FixtureShape(section: string, key: string, value: string)
    requires section != key
    ensures var es := ContainsFixture(section, key, value);
      && Keys(es) == [key, section]
      && Lookup(es, key) == Dict(false, [(key, Str(value))])
      && Lookup(es, section) == Dict(true, [(section, Dict(true, [(key, Str(value))]))])
      && Keys([(key, Str(value))]) == [key]
      && Keys([(section, Dict(true, [(key, Str(value))]))]) == [section]
  {
    var es := ContainsFixture(section, key, value);
    assert es[1..][1..] == [];
    assert Keys(es[1..]) == [section];
    assert [(key, Str(value))][1..] == [];
    assert [(section, Dict(true, [(key, Str(value))]))][1..] == [];
  }

  /** `key in d` holds and `value in d` does not: a stored value is not a key. */
  lemma FixtureMembership(section: string, key: string, value: string)
    requires section != key && value != key && value != section
    ensures In(ContainsFixture(section, key, value), Key(key)) == Ok(true)
    ensures In(ContainsFixture(section, key, value), Key(value)) == Ok(false)
  {
    FixtureShape(section, key, value);
  }

  /** `d.contains(section, section, key)` holds and
      `d.contains(section, key, key)` does not: both descend into AutoDicts. */
  lemma FixtureDeep(section: string, key: string, value: string)
    requires section != key
    ensures Contains(ContainsFixture(section, key, value), [section, section, key]) == Ok(true)
    ensures Contains(ContainsFixture(section, key, value), [section, key, key]) == Ok(false)
  {
    var es := ContainsFixture(section, key, value);
    var middle := [(section, Dict(true, [(key, Str(value))]))];
    FixtureShape(section, key, value);
    ContainsCases(es, section, [section, key]);
    ContainsCases(middle, section, [key]);
    ContainsCases(es, section, [key, key]);
  }

  /** `[key, key] in d` holds: the plain dict at `key` is asked natively for
      `key`. `[key, key, key] in d` does not: it is asked for the tuple
      `(key, key)`, which is not one of its keys. */
  lemma FixturePlainChild(section: string, key: string, value: string)
    requires section != key
    ensures In(ContainsFixture(section, key, value), KeyList([key, key])) == Ok(true)
    ensures In(ContainsFixture(section, key, value), KeyList([key, key, key])) == Ok(false)
  {
    var es := ContainsFixture(section, key, value);
    FixtureShape(section, key, value);
    ContainsCases(es, key, [key]);
    ContainsCases(es, key, [key, key]);
  }

  /** tests/test_autodict.py, test_contains: with `d[key] = {key: value}` (a
      plain dict) and `d[section][section][key] = value`, `key in d`,
      `d.contains(section, section, key)` and `[key, key] in d` hold, while
      `value in d`, `d.contains(section, key, key)` and `[key, key, key] in d`
      do not. */
  method ContainsScenario(section: string, key: string, value: string)
    returns (keyIn: Result<bool>, valueIn: Result<bool>, deep: Result<bool>, wrong: Result<bool>,
             pair: Result<bool>, triple: Result<bool>)
    requires section != key && value != key && value != section
    ensures keyIn == Ok(true) && valueIn == Ok(false)
    ensures deep == Ok(true) && wrong == Ok(false)
    ensures pair == Ok(true) && triple == Ok(false)
  {
    var d := new AutoDict([]);
    d.SetItem(key, Dict(false, [(key, Str(value))]));
    assert d.entries == [(key, Dict(false, [(key, Str(value))]))];
    AssignFixture(section, key, value);
    var raised := d.Assign([section, section, key], Str(value));
    var es := d.entries;
    FixtureMembership(section, key, value);
    FixtureDeep(section, key, value);
    FixturePlainChild(section, key, value);
    keyIn := In(es, Key(key));
    valueIn := In(es, Key(value));
    deep := In(es, KeyList([section, section, key]));
    wrong := Contains(es, [section, key, key]);
    pair := In(es, KeyList([key, key]));
    triple := In(es, KeyList([key, key, key]));
  }
}
