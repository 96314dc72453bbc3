/** The self-tagging AutoDict of autodict/autodict.py. Every AutoDict stores
    `"__type__": "AutoDict"` among its own entries, so that a JSON file written
    with plain dicts can tell on loading which objects were AutoDicts. Its
    JSONAutoDict uses the standard json library with AutoDictEncoder and the
    `decoder` hook. */
module Legacy {
  import opened Values
  import opened BaseDriver

  const TypeKey: string := "__type__"
  const Tag: Value := Str("AutoDict")

  /** The entries after `AutoDict(es)`: those given, then the tag set. */
  function Tagged(es: Entries): (r: Entries)
    ensures HasKey(r, TypeKey) && Lookup(r, TypeKey) == Tag
    ensures forall k :: k != TypeKey ==> (HasKey(r, k) <==> HasKey(es, k))
    ensures forall k :: k != TypeKey && HasKey(es, k) ==> Lookup(r, k) == Lookup(es, k)
  {
    TagLookup(es);
    SetEntry(es, TypeKey, Tag)
  }

  lemma TagLookup(es: Entries)
    ensures forall k :: HasKey(SetEntry(es, TypeKey, Tag), k) <==> k == TypeKey || HasKey(es, k)
    ensures HasKey(SetEntry(es, TypeKey, Tag), TypeKey) && Lookup(SetEntry(es, TypeKey, Tag), TypeKey) == Tag
    ensures forall k :: k != TypeKey && HasKey(es, k) ==> Lookup(SetEntry(es, TypeKey, Tag), k) == Lookup(es, k)
  {
    forall k {
      SetEntryLookup(es, TypeKey, Tag, k);
    }
  }

  /** `AutoDict()`: a new AutoDict holds only its tag. */
  const TaggedEmpty: Value := Dict(true, [(TypeKey, Tag)])

  /** Tagging keeps the keys distinct. */
  lemma TaggedDistinct(es: Entries)
    requires DistinctKeys(es)
    ensures DistinctKeys(Tagged(es))
  {
    SetEntryDistinct(es, TypeKey, Tag);
  }

  /** A self-tagging AutoDict object. */
  class AutoDict {
    var entries: Entries

    /** Like every Python dict, the keys are distinct. */
    ghost predicate Valid()
      reads this
    {
      DistinctKeys(entries)
    }

    /** `AutoDict(init)`: the tag overrides any `__type__` given. */
    constructor (init: Entries)
      requires DistinctKeys(init)
      ensures Valid() && entries == Tagged(init)
    {
      TaggedDistinct(init);
      entries := Tagged(init);
    }

    /** `__missing__(key)`: store a new (tagged) AutoDict at `key` and
      return it. */
    method Missing(key: string) returns (value: Value)
      requires Valid()
      modifies this
      ensures Valid()
      ensures value == TaggedEmpty && value.entries == Tagged([])
      ensures entries == SetEntry(old(entries), key, TaggedEmpty)
    {
      value := Dict(true, Tagged([]));
      SetEntryDistinct(entries, key, value);
      entries := SetEntry(entries, key, value);
    }

    /** Reading `self[key]`: the stored value, or on a miss the new tagged
      AutoDict that `__missing__` appends, which is not empty. */
    method GetItem(key: string) returns (value: Value)
      requires Valid()
      modifies this
      ensures Valid()
      ensures HasKey(old(entries), key) ==> entries == old(entries) && value == Lookup(old(entries), key)
      ensures !HasKey(old(entries), key) ==> entries == old(entries) + [(key, TaggedEmpty)] && value == TaggedEmpty
      ensures HasKey(entries, key) && Lookup(entries, key) == value
    {
      if HasKey(entries, key) {
        value := Lookup(entries, key);
      } else {
        SetEntryAbsent(entries, key, TaggedEmpty);
        SetEntryLookup(entries, key, TaggedEmpty, key);
        value := Missing(key);
      }
    }
  }

  /** AutoDictEncoder.default: an AutoDict becomes a plain dict with the same
      entries; anything else goes to json.JSONEncoder.default, which raises
      TypeError. */
  function EncoderDefault(v: Value): (r: Result<Value>)
    ensures v.Dict? && v.isAuto ==> r.Ok? && r.value.Dict? && !r.value.isAuto && r.value.entries == v.entries
    ensures !(v.Dict? && v.isAuto) ==> r == Err(TypeError)
  {
    if v.Dict? && v.isAuto then Ok(Dict(false, v.entries)) else Err(TypeError)
  }

  /** json writes a dict subclass as a dict without asking the encoder, so
      `default` only ever sees leaves of non-JSON classes; on those the
      legacy encoder behaves as an empty type table. */
  lemma EncoderDefaultOnLeaves(k: ExtKind, t: string)
    ensures EncoderDefault(Ext(k, t)) == TableDefault([], Ext(k, t))
    ensures LeafRule({}, [], {})
  {
  }

  /** AutoDictEncoder.decoder: an object whose `__type__` is "AutoDict"
      becomes an AutoDict with the same entries; any other object, with an
      unknown `__type__` or none, is returned as the plain dict it is. */
  function Decoder(es: Entries): (r: Value)
    ensures r.Dict? && r.entries == es
    ensures r.isAuto <==> HasKey(es, TypeKey) && Lookup(es, TypeKey) == Tag
  {
    if HasKey(es, TypeKey) && Lookup(es, TypeKey) == Tag then
      SetEntrySame(es, TypeKey);
      Dict(true, Tagged(es))
    else Dict(false, es)
  }

  /** `json.load(file, object_hook=decoder)` on a parsed document `w`. */
  function LoadTree(w: Value): Value
  {
    DecodeWith(Decoder, w)
  }

  /** The tagging discipline: a dict is an AutoDict exactly when it carries
      the tag, at every depth. */
  predicate WellTagged(v: Value)
  {
    match v
    case Dict(isAuto, es) =>
      (isAuto <==> HasKey(es, TypeKey) && Lookup(es, TypeKey) == Tag) &&
      forall i :: 0 <= i < |es| ==> WellTagged(es[i].1)
    case List(items) => forall i :: 0 <= i < |items| ==> WellTagged(items[i])
    case _ => true
  }

  /** Writing a well-tagged tree as plain dicts and loading it back with the
      decoder restores it exactly, AutoDicts and plain dicts alike. */
  lemma {:induction false} LegacyRoundTrip(v: Value)
    requires WellTagged(v)
    ensures LoadTree(Plain(v)) == v
  {
    match v
    case Dict(isAuto, es) =>
      forall i | 0 <= i < |es| ensures LoadTree(Plain(es[i].1)) == es[i].1 {
        LegacyRoundTrip(es[i].1);
      }
      var pes := seq(|es|, i requires 0 <= i < |es| => (es[i].0, Plain(es[i].1)));
      assert Plain(v) == Dict(false, pes);
      var decoded := seq(|pes|, i requires 0 <= i < |pes| => (pes[i].0, DecodeWith(Decoder, pes[i].1)));
      assert LoadTree(Plain(v)) == Decoder(decoded);
      assert forall i :: 0 <= i < |es| ==> decoded[i] == es[i];
      assert decoded == es;
    case List(items) =>
      forall i | 0 <= i < |items| ensures LoadTree(Plain(items[i])) == items[i] {
        LegacyRoundTrip(items[i]);
      }
      assert LoadTree(Plain(v)).items == items;
    case _ =>
  }

  /** With no leaf of a non-JSON class, the rendered value is the plain one. */
  lemma {:induction false} RenderedIsPlainWithoutLeaves(v: Value)
    requires LeavesIn({}, v)
    ensures Rendered(v) == Plain(v)
  {
    match v
    case Dict(_, es) =>
      forall i | 0 <= i < |es| ensures Rendered(es[i].1) == Plain(es[i].1) { RenderedIsPlainWithoutLeaves(es[i].1); }
      assert Rendered(v).entries == Plain(v).entries;
    case List(items) =>
      forall i | 0 <= i < |items| ensures Rendered(items[i]) == Plain(items[i]) { RenderedIsPlainWithoutLeaves(items[i]); }
      assert Rendered(v).items == Plain(v).items;
    case _ =>
  }

  /** `json.dump(dict(self), file, cls=AutoDictEncoder, indent=indent)`:
      the entries written as plain dicts; any leaf of a non-JSON class
      raises TypeError. */
  function DumpEntries(es: Entries, indent: Option<int>): (r: Result<Dumped>)
    ensures r.Ok? <==> LeavesIn({}, Dict(false, es))
    ensures r.Ok? ==> r.value == Dumped(Plain(Dict(false, es)), indent)
    ensures r.Err? ==> r.error == TypeError
  {
    EncodeRenders({}, [], {}, Dict(false, es));
    if LeavesIn({}, Dict(false, es)) then RenderedIsPlainWithoutLeaves(Dict(false, es)); Ok(Dumped(Encode({}, [], Dict(false, es)).value, indent))
    else Err(Encode({}, [], Dict(false, es)).error)
  }

  /** The legacy JSONAutoDict. Its encoder and decoder are the defaults,
      AutoDictEncoder and its `decoder`. */
  class JSONAutoDict {
    var entries: Entries
    var saveOnExit: bool
    var path: string
    var saves: seq<SaveRecord>

    /** Like every Python dict, the keys are distinct. */
    ghost predicate Valid()
      reads this
    {
      DistinctKeys(entries)
    }

    /** `JSONAutoDict(path, save_on_exit=False, **kwargs)` once the file, if
      any, has been loaded to the entries `loaded`: the tagged keyword
      entries, then each loaded entry written over them. Unlike the
      driver-based class, the flag is clear by default. */
    constructor (path: string, loaded: Option<Entries>, saveOnExit: bool := false, kwargs: Entries := [])
      requires DistinctKeys(kwargs) && (loaded.Some? ==> DistinctKeys(loaded.value))
      ensures Valid()
      ensures this.path == path && this.saveOnExit == saveOnExit && saves == []
      ensures entries == if loaded.None? then Tagged(kwargs) else Merged(Tagged(kwargs), loaded.value)
    {
      this.path := path;
      this.saveOnExit := saveOnExit;
      saves := [];
      TaggedDistinct(kwargs);
      var es := Tagged(kwargs);
      if loaded.Some? {
        MergedLookup(es, loaded.value, "");
        es := MergeInto(es, loaded.value);
      }
      entries := es;
    }

    /** `save(indent=2)`. */
    method Save(indent: Option<int> := Some(2)) returns (raised: Option<PyError>)
      modifies this
      ensures saves == old(saves) + [SaveRecord(path, DumpEntries(entries, indent))]
      ensures raised == if DumpEntries(entries, indent).Err? then Some(TypeError) else None
      ensures entries == old(entries) && saveOnExit == old(saveOnExit) && path == old(path)
    {
      var written := DumpEntries(entries, indent);
      saves := saves + [SaveRecord(path, written)];
      raised := if written.Err? then Some(written.error) else None;
    }

    /** `__exit__`: with the flag set, one `save()` (indent 2), then the
      flag is cleared unless the save raised. */
    method Exit() returns (raised: Option<PyError>)
      modifies this
      ensures old(saveOnExit) ==> saves == old(saves) + [SaveRecord(path, DumpEntries(entries, Some(2)))]
      ensures old(saveOnExit) ==> saveOnExit == raised.Some?
      ensures old(saveOnExit) ==> (raised.None? <==> DumpEntries(entries, Some(2)).Ok?)
      ensures !old(saveOnExit) ==> saves == old(saves) && !saveOnExit && raised == None
      ensures entries == old(entries) && path == old(path)
    {
      raised := None;
      if saveOnExit {
        raised := Save();
        if raised.None? {
          saveOnExit := false;
        }
      }
    }

    /** `__del__`: with the flag set, one `save()` (indent 2); the flag is
      left as it is. */
    method Del() returns (raised: Option<PyError>)
      modifies this
      ensures old(saveOnExit) ==> saves == old(saves) + [SaveRecord(path, DumpEntries(entries, Some(2)))]
      ensures !old(saveOnExit) ==> saves == old(saves) && raised == None
      ensures saveOnExit == old(saveOnExit) && entries == old(entries) && path == old(path)
    {
      raised := None;
      if saveOnExit {
        raised := Save();
      }
    }
  }

  /** Decoding a JSON object keeps its keys. */
  lemma LoadTreeKeys(w: Value)
    requires w.Dict?
    ensures LoadTree(w).Dict? && Keys(LoadTree(w).entries) == Keys(w.entries)
  {
    var es := LoadTree(w).entries;
    KeysLength(es);
    KeysLength(w.entries);
    assert forall i :: 0 <= i < |es| ==> Keys(es)[i] == Keys(w.entries)[i];
  }

  /** Running the legacy `JSONAutoDict(path, save_on_exit=..., **kwargs)`
      where `file` is the parsed content of the file when it exists. The
      flag and the path are stored before the file is read, so when the
      document does not decode to a dict and `data.items()` raises
      AttributeError, the object already exists, holding the tagged keyword
      entries only, and Python still runs its `__del__`; it is returned
      together with the error. */
  method Open(path: string, file: Option<Value>, saveOnExit: bool := false, kwargs: Entries := [])
    returns (d: JSONAutoDict, raised: Option<PyError>)
    requires DistinctKeys(kwargs) && (file.Some? && file.value.Dict? ==> DistinctKeys(file.value.entries))
    ensures fresh(d) && d.Valid() && d.saves == [] && d.saveOnExit == saveOnExit && d.path == path
    ensures raised.Some? <==> file.Some? && !file.value.Dict?
    ensures raised.Some? ==> raised.value == AttributeError
    ensures file.None? || raised.Some? ==> d.entries == Tagged(kwargs)
    ensures raised.None? && file.Some? ==> d.entries == Merged(Tagged(kwargs), LoadTree(file.value).entries)
  {
    raised := None;
    if file.Some? && !file.value.Dict? {
      d := new JSONAutoDict(path, None, saveOnExit, kwargs);
      raised := Some(AttributeError);
    } else if file.Some? {
      LoadTreeKeys(file.value);
      var data := LoadTree(file.value);
      d := new JSONAutoDict(path, Some(data.entries), saveOnExit, kwargs);
    } else {
      d := new JSONAutoDict(path, None, saveOnExit, kwargs);
    }
  }

  /** With the flag set, a legacy JSONAutoDict whose file does not hold a
      JSON object also writes its tagged keyword entries over that file when
      the half-built object is collected. */
  method FailedOpenThenDel(path: string, file: Value, kwargs: Entries) returns (d: JSONAutoDict, raised: Option<PyError>)
    requires !file.Dict? && DistinctKeys(kwargs)
    ensures raised == Some(AttributeError)
    ensures d.saves == [SaveRecord(path, DumpEntries(Tagged(kwargs), Some(2)))]
  {
    d, raised := Open(path, Some(file), true, kwargs);
    var delRaised := d.Del();
  }

  /** The defaults: with no arguments but the path, the flag is clear, so
      leaving `with` writes nothing, and `save()` writes with indent 2. */
  method DefaultsScenario(path: string) returns (d: JSONAutoDict)
    ensures !d.saveOnExit && |d.saves| == 1
    ensures d.saves[0].written.Ok? && d.saves[0].written.value.indent == Some(2)
  {
    var raised;
    d, raised := Open(path, None);
    raised := d.Exit();
    assert LeavesIn({}, Dict(false, Tagged([])));
    raised := d.Save();
  }

  /** A legacy JSONAutoDict with the flag set that is left through `with`
      and then collected is saved once when that save succeeds; one that is
      collected twice without `with` is saved twice, because `__del__` never
      clears the flag. */
  method TeardownScenario(path: string, kwargs: Entries) returns (closed: JSONAutoDict, dropped: JSONAutoDict)
    requires LeavesIn({}, Dict(false, Tagged(kwargs))) && DistinctKeys(kwargs)
    ensures |closed.saves| == 1 && closed.saves[0].written.Ok? && closed.saves[0].written.value.indent == Some(2)
    ensures |dropped.saves| == 2 && dropped.saveOnExit
  {
    closed := new JSONAutoDict(path, None, true, kwargs);
    var r1 := closed.Exit();
    var r2 := closed.Del();
    dropped := new JSONAutoDict(path, None, true, kwargs);
    var r3 := dropped.Del();
    var r4 := dropped.Del();
  }

  /** A well-tagged dict without non-JSON leaves, saved and then loaded by a
      new JSONAutoDict without keyword entries, comes back as the same tree:
      the top level holds the saved entries and every child keeps its class. */
  lemma SaveThenReload(es: Entries, indent: Option<int>)
    requires WellTagged(Dict(true, es)) && LeavesIn({}, Dict(false, es))
    ensures DumpEntries(es, indent).Ok?
    ensures LoadTree(DumpEntries(es, indent).value.document).entries == es
    ensures forall i :: 0 <= i < |es| ==> LoadTree(Plain(es[i].1)) == es[i].1
  {
    LegacyRoundTrip(Dict(true, es));
    forall i | 0 <= i < |es| ensures LoadTree(Plain(es[i].1)) == es[i].1 {
      LegacyRoundTrip(es[i].1);
    }
  }
}
