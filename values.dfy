/** The values an AutoDict holds, and the Python dict operations the library
    relies on: key lookup, item assignment and the bulk copy `for k, v in
    data.items(): self[k] = v`. A Python dict is modelled as its entries in
    insertion order; every operation here acts on the first entry with a key,
    so they agree with Python whenever the keys are distinct (DistinctKeys),
    which every operation preserves. */
module Values {

  datatype Option<+T> = None | Some(value: T)

  /** The Python exceptions the modelled code raises or lets through. */
  datatype PyError = IndexError | KeyError | TypeError | AttributeError

  datatype Result<+T> = Ok(value: T) | Err(error: PyError)

  /** The non-JSON classes the drivers name: datetime.datetime,
      datetime.date, datetime.time, uuid.UUID, and any other class by name. */
  datatype ExtKind = DateTime | Date | Time | Uuid | Custom(typeName: string)

  /** A Python value stored in a dict. `Ext` is an instance of a non-JSON class
      together with its standard text form (what `isoformat()` gives for the
      date and time classes and `str()` gives for a UUID). `Dict` is a Python
      dict; `isAuto` tells an AutoDict from a plain dict. Floats only pass
      through, so a float is kept as its literal. */
  datatype Value =
    | Null
    | Bool(b: bool)
    | Int(i: int)
    | Float(literal: string)
    | Str(s: string)
    | Ext(kind: ExtKind, text: string)
    | List(items: seq<Value>)
    | Dict(isAuto: bool, entries: seq<(string, Value)>)

  type Entries = seq<(string, Value)>

  /** The value with every AutoDict turned into a plain dict. An AutoDict is
      a dict subclass that does not override `__eq__`, so Python's `==`
      compares two values exactly when their Plain forms are equal. */
  function Plain(v: Value): Value
  {
    match v
    case Dict(_, es) => Dict(false, seq(|es|, i requires 0 <= i < |es| => (es[i].0, Plain(es[i].1))))
    case List(items) => List(seq(|items|, i requires 0 <= i < |items| => Plain(items[i])))
    case _ => v
  }

  /** A freshly constructed `AutoDict()`. */
  const EmptyAuto: Value := Dict(true, [])

  function Keys(es: Entries): seq<string>
  {
    if es == [] then [] else [es[0].0] + Keys(es[1..])
  }

  /** `k in d`, Python's own (non-creating) membership test. */
  predicate HasKey(es: Entries, k: string)
  {
    k in Keys(es)
  }

  predicate NoDuplicates(ks: seq<string>)
  {
    forall i, j :: 0 <= i < j < |ks| ==> ks[i] != ks[j]
  }

  /** Every Python dict has distinct keys. */
  predicate DistinctKeys(es: Entries)
  {
    NoDuplicates(Keys(es))
  }

  /** `d[k]` on a key that is present. */
  function Lookup(es: Entries, k: string): Value
    requires HasKey(es, k)
  {
    if es[0].0 == k then es[0].1 else Lookup(es[1..], k)
  }

  /** `d[k] = v`: overwrite the value in place, or append a new entry. */
  function SetEntry(es: Entries, k: string, v: Value): Entries
  {
    if es == [] then [(k, v)]
    else if es[0].0 == k then [(k, v)] + es[1..]
    else [es[0]] + SetEntry(es[1..], k, v)
  }

  lemma {:induction false} KeysLength(es: Entries)
    ensures |Keys(es)| == |es|
    ensures forall i :: 0 <= i < |es| ==> Keys(es)[i] == es[i].0
  {
    if es != [] {
      KeysLength(es[1..]);
    }
  }

  lemma {:induction false} KeysAppend(es: Entries, e: (string, Value))
    ensures Keys(es + [e]) == Keys(es) + [e.0]
  {
    if es != [] {
      assert (es + [e])[1..] == es[1..] + [e];
      KeysAppend(es[1..], e);
    }
  }

  /** After `d[k] = v`, `d[k]` is `v` and every other key reads as before. */
  lemma {:induction false} SetEntryLookup(es: Entries, k: string, v: Value, k2: string)
    ensures HasKey(SetEntry(es, k, v), k2) <==> k2 == k || HasKey(es, k2)
    ensures k2 == k ==> HasKey(SetEntry(es, k, v), k2) && Lookup(SetEntry(es, k, v), k2) == v
    ensures k2 != k && HasKey(es, k2) ==> Lookup(SetEntry(es, k, v), k2) == Lookup(es, k2)
  {
    if es != [] {
      if es[0].0 == k {
        assert ([(k, v)] + es[1..])[1..] == es[1..];
      } else {
        assert ([es[0]] + SetEntry(es[1..], k, v))[1..] == SetEntry(es[1..], k, v);
        SetEntryLookup(es[1..], k, v, k2);
      }
    } else {
      assert Keys([(k, v)]) == [k] by { assert [(k, v)][1..] == []; }
    }
  }

  /** Item assignment keeps the key order: an existing key stays where it
      is, a new key goes last. */
  lemma {:induction false} SetEntryKeys(es: Entries, k: string, v: Value)
    ensures Keys(SetEntry(es, k, v)) == if HasKey(es, k) then Keys(es) else Keys(es) + [k]
  {
    if es != [] && es[0].0 != k {
      SetEntryKeys(es[1..], k, v);
    }
  }

  lemma SetEntryDistinct(es: Entries, k: string, v: Value)
    requires DistinctKeys(es)
    ensures DistinctKeys(SetEntry(es, k, v))
  {
    SetEntryKeys(es, k, v);
  }

  /** Writing back the value a key already has changes nothing. */
  lemma {:induction false} SetEntrySame(es: Entries, k: string)
    requires HasKey(es, k)
    ensures SetEntry(es, k, Lookup(es, k)) == es
  {
    if es[0].0 != k {
      SetEntrySame(es[1..], k);
    }
  }

  /** Inserting a key that is absent appends one entry. */
  lemma {:induction false} SetEntryAbsent(es: Entries, k: string, v: Value)
    requires !HasKey(es, k)
    ensures SetEntry(es, k, v) == es + [(k, v)]
  {
    if es != [] {
      SetEntryAbsent(es[1..], k, v);
    }
  }

  /** `for k, v in over.items(): base[k] = v`, as a function of both dicts. */
  function Merged(base: Entries, over: Entries): Entries
  {
    if over == [] then base
    else
      var last := over[|over| - 1];
      SetEntry(Merged(base, over[..|over| - 1]), last.0, last.1)
  }

  /** The loop that copies loaded entries into a JSONAutoDict. */
  method MergeInto(base: Entries, over: Entries) returns (r: Entries)
    ensures r == Merged(base, over)
  {
    r := base;
    for i := 0 to |over|
      invariant r == Merged(base, over[..i])
    {
      assert over[..i + 1][..i] == over[..i];
      r := SetEntry(r, over[i].0, over[i].1);
    }
    assert over[..|over|] == over;
  }

  /** Copying `over` into `base`: the keys of both are present, a key of
      `over` reads as in `over` (its value wins), any other key as in `base`,
      and the keys stay distinct. */
  lemma {:induction false} MergedLookup(base: Entries, over: Entries, k: string)
    requires DistinctKeys(base) && DistinctKeys(over)
    ensures DistinctKeys(Merged(base, over))
    ensures HasKey(Merged(base, over), k) <==> HasKey(base, k) || HasKey(over, k)
    ensures HasKey(over, k) ==> Lookup(Merged(base, over), k) == Lookup(over, k)
    ensures !HasKey(over, k) && HasKey(base, k) ==> Lookup(Merged(base, over), k) == Lookup(base, k)
  {
    if over != [] {
      var n := |over| - 1;
      var init, last := over[..n], over[n];
      assert over == init + [last];
      KeysAppend(init, last);
      KeysLength(over);
      assert DistinctKeys(init) by {
        assert Keys(init) == Keys(over)[..n];
      }
      assert !HasKey(init, last.0) by {
        assert Keys(init) == Keys(over)[..n];
        assert forall j :: 0 <= j < n ==> Keys(init)[j] != Keys(over)[n];
      }
      MergedLookup(base, init, k);
      var m := Merged(base, init);
      SetEntryDistinct(m, last.0, last.1);
      SetEntryLookup(m, last.0, last.1, k);
      if k != last.0 && HasKey(init, k) {
        LookupAppend(init, last, k);
      }
      if k == last.0 {
        LookupAppend(init, last, k);
      }
    }
  }

  lemma {:induction false} LookupAppend(es: Entries, e: (string, Value), k: string)
    requires HasKey(es, k) || (k == e.0 && !HasKey(es, k))
    ensures HasKey(es + [e], k)
    ensures Lookup(es + [e], k) == if HasKey(es, k) then Lookup(es, k) else e.1
  {
    KeysAppend(es, e);
    if es != [] {
      assert (es + [e])[1..] == es[1..] + [e];
      if es[0].0 != k {
        LookupAppend(es[1..], e, k);
      }
    }
  }
}
