/** JSONAutoDict of autodict/json_drivers/base.py: an AutoDict tied to a
    JSON file through a driver, filled from the file when it exists and
    saved at most once on teardown. The file is its parsed content (`None`
    when the path does not exist); each save is recorded with what the
    driver's dump was asked to write. */
module JsonAutoDicts {
  import opened Values
  import opened BaseDriver
  import UltraJsonDriver
  import OrjsonDriver
  import RapidJsonDriver
  import SimpleJsonDriver

  /** The driver classes a JSONAutoDict can be given. */
  datatype Backend = Json | UltraJson | Orjson | RapidJson | SimpleJson

  /** `driver.dump(obj, path, indent=indent)`, up to the text written. */
  function DriverDumps(b: Backend, doc: Value, indent: Option<int>): Result<Dumped>
  {
    match b
    case Json => BaseDriver.Dumps(doc, indent)
    case UltraJson => UltraJsonDriver.Dumps(doc, indent)
    case Orjson => OrjsonDriver.Dumps(doc, indent)
    case RapidJson => RapidJsonDriver.Dumps(doc, indent)
    case SimpleJson => SimpleJsonDriver.Dumps(doc, indent)
  }

  /** `driver.load(path)` on a file whose parsed content is `w`. */
  function DriverLoad(b: Backend, w: Value): Value
  {
    match b
    case Json => BaseDriver.Load(w)
    case UltraJson => UltraJsonDriver.Load(w)
    case Orjson => OrjsonDriver.Load(w)
    case RapidJson => RapidJsonDriver.Load(w)
    case SimpleJson => SimpleJsonDriver.Load(w)
  }

  /** Every driver loads a file the same way: each dict becomes an AutoDict
      and nothing else changes, so an object stays an object. */
  lemma DriverLoadSame(b: Backend, w: Value)
    ensures DriverLoad(b, w) == DriverLoad(Json, w)
    ensures DriverLoad(b, w).Dict? <==> w.Dict?
    ensures w.Dict? ==> DriverLoad(b, w).isAuto && Keys(DriverLoad(b, w).entries) == Keys(w.entries)
  {
    Upgrade.UpgradeShape(w);
  }

  /** The entries a new JSONAutoDict holds: the keyword entries, then each
      loaded entry written over them. */
  function InitialEntries(kwargs: Entries, loaded: Option<Entries>): Entries
  {
    if loaded.None? then kwargs else Merged(kwargs, loaded.value)
  }

  /** Without a file the dict holds exactly the keyword entries. With one,
      it holds the keys of both, a loaded value wins over a keyword value
      of the same key, and the keys stay distinct. */
  lemma InitialEntriesLookup(kwargs: Entries, loaded: Option<Entries>, k: string)
    requires DistinctKeys(kwargs) && (loaded.Some? ==> DistinctKeys(loaded.value))
    ensures loaded.None? ==> InitialEntries(kwargs, loaded) == kwargs
    ensures DistinctKeys(InitialEntries(kwargs, loaded))
    ensures loaded.Some? ==> (HasKey(InitialEntries(kwargs, loaded), k) <==> HasKey(kwargs, k) || HasKey(loaded.value, k))
    ensures loaded.Some? && HasKey(loaded.value, k) ==> Lookup(InitialEntries(kwargs, loaded), k) == Lookup(loaded.value, k)
    ensures loaded.Some? && !HasKey(loaded.value, k) && HasKey(kwargs, k) ==>
      Lookup(InitialEntries(kwargs, loaded), k) == Lookup(kwargs, k)
  {
    if loaded.Some? {
      MergedLookup(kwargs, loaded.value, k);
    }
  }

  class JSONAutoDict {
    var entries: Entries
    var saveOnExit: bool
    var driver: Backend
    var path: string
    /** Every dump call made so far, oldest first. */
    var saves: seq<SaveRecord>

    /** Like every Python dict, the keys are distinct. */
    ghost predicate Valid()
      reads this
    {
      DistinctKeys(entries)
    }

    /** `JSONAutoDict(path, save_on_exit=..., driver=..., **kwargs)` once
      the file, if any, has been loaded to the entries `loaded`. The
      defaults are those of the source: the flag is set, and a driver of
      None means DefaultJSONDriver. */
    constructor (path: string, loaded: Option<Entries>, saveOnExit: bool := true,
                 driver: Option<Backend> := None, kwargs: Entries := [])
      requires DistinctKeys(kwargs) && (loaded.Some? ==> DistinctKeys(loaded.value))
      ensures Valid()
      ensures this.path == path && this.saveOnExit == saveOnExit
      ensures this.driver == if driver.None? then Json else driver.value
      ensures entries == InitialEntries(kwargs, loaded)
      ensures saves == []
    {
      this.path := path;
      this.saveOnExit := saveOnExit;
      this.driver := if driver.None? then Json else driver.value;
      saves := [];
      var es := kwargs;
      if loaded.Some? {
        es := MergeInto(kwargs, loaded.value);
        MergedLookup(kwargs, loaded.value, "");
      }
      entries := es;
    }

    /** `self[key] = value`. */
    method SetItem(key: string, value: Value)
      requires Valid()
      modifies this
      ensures Valid()
      ensures entries == SetEntry(old(entries), key, value)
      ensures saveOnExit == old(saveOnExit) && driver == old(driver) && path == old(path) && saves == old(saves)
    {
      SetEntryDistinct(entries, key, value);
      entries := SetEntry(entries, key, value);
    }

    /** `save(indent=None)`: one dump of the whole dict to the stored path
      with the given indent; `raised` is the TypeError the dump raises on a
      value it cannot write. Nothing but the log changes. */
    method Save(indent: Option<int> := None) returns (raised: Option<PyError>)
      modifies this
      ensures saves == old(saves) + [SaveRecord(path, DriverDumps(driver, Dict(true, entries), indent))]
      ensures raised == if saves[|saves| - 1].written.Err? then Some(saves[|saves| - 1].written.error) else None
      ensures entries == old(entries) && saveOnExit == old(saveOnExit) && driver == old(driver) && path == old(path)
    {
      var written := DriverDumps(driver, Dict(true, entries), indent);
      saves := saves + [SaveRecord(path, written)];
      raised := if written.Err? then Some(written.error) else None;
    }

    /** `__exit__`: with the flag set, one `save()` with the default indent
      (None), after which the flag is cleared unless the save raised; with
      the flag clear, nothing. */
    method Exit() returns (raised: Option<PyError>)
      modifies this
      ensures old(saveOnExit) ==> saves == old(saves) + [SaveRecord(path, DriverDumps(driver, Dict(true, entries), None))]
      ensures old(saveOnExit) ==> saveOnExit == raised.Some?
      ensures old(saveOnExit) ==> (raised.None? <==> DriverDumps(driver, Dict(true, entries), None).Ok?)
      ensures !old(saveOnExit) ==> saves == old(saves) && !saveOnExit && raised == None
      ensures entries == old(entries) && driver == old(driver) && path == old(path)
    {
      raised := None;
      if saveOnExit {
        raised := Save();
        if raised.None? {
          saveOnExit := false;
        }
      }
    }

    /** `__del__`: the same steps as `__exit__`. */
    method Del() returns (raised: Option<PyError>)
      modifies this
      ensures old(saveOnExit) ==> saves == old(saves) + [SaveRecord(path, DriverDumps(driver, Dict(true, entries), None))]
      ensures old(saveOnExit) ==> saveOnExit == raised.Some?
      ensures old(saveOnExit) ==> (raised.None? <==> DriverDumps(driver, Dict(true, entries), None).Ok?)
      ensures !old(saveOnExit) ==> saves == old(saves) && !saveOnExit && raised == None
      ensures entries == old(entries) && driver == old(driver) && path == old(path)
    {
      raised := None;
      if saveOnExit {
        raised := Save();
        if raised.None? {
          saveOnExit := false;
        }
      }
    }

    /** Leaving a `with` block and then being collected: a dict whose flag
      is set is saved once when that save succeeds, and is never saved when
      its flag is clear. */
    method ExitThenDel()
      modifies this
      ensures !old(saveOnExit) ==> saves == old(saves)
      ensures old(saveOnExit) && DriverDumps(driver, Dict(true, entries), None).Ok? ==>
        saves == old(saves) + [SaveRecord(path, DriverDumps(driver, Dict(true, entries), None))] && !saveOnExit
      ensures entries == old(entries) && driver == old(driver) && path == old(path)
    {
      var r1 := Exit();
      var r2 := Del();
    }
  }

  /** The entries a driver loads from a file holding a JSON object keep
      that object's (distinct) keys. */
  lemma LoadedKeys(b: Backend, w: Value)
    requires w.Dict? && DistinctKeys(w.entries)
    ensures DriverLoad(b, w).Dict? && DistinctKeys(DriverLoad(b, w).entries)
  {
    DriverLoadSame(b, w);
  }

  /** Running `JSONAutoDict(path, save_on_exit=..., driver=..., **kwargs)`
      where `file` is the parsed content of the file when it exists. The
      flag, the driver and the path are stored before the file is read, so
      when the loaded value is not a dict and `data.items()` raises
      AttributeError, the object already exists, holding the keyword
      entries only, and Python still runs its `__del__`; it is returned
      together with the error. */
  method Open(path: string, file: Option<Value>, saveOnExit: bool := true,
              driver: Option<Backend> := None, kwargs: Entries := [])
    returns (d: JSONAutoDict, raised: Option<PyError>)
    requires DistinctKeys(kwargs) && (file.Some? && file.value.Dict? ==> DistinctKeys(file.value.entries))
    ensures fresh(d) && d.Valid() && d.saves == [] && d.saveOnExit == saveOnExit && d.path == path
    ensures d.driver == if driver.None? then Json else driver.value
    ensures raised.Some? <==> file.Some? && !file.value.Dict?
    ensures raised.Some? ==> raised.value == AttributeError
    ensures file.None? || raised.Some? ==> d.entries == kwargs
    ensures raised.None? && file.Some? ==> d.entries == Merged(kwargs, DriverLoad(d.driver, file.value).entries)
  {
    var b := if driver.None? then Json else driver.value;
    raised := None;
    if file.Some? {
      DriverLoadSame(b, file.value);
      var data := DriverLoad(b, file.value);
      if !data.Dict? {
        d := new JSONAutoDict(path, None, saveOnExit, driver, kwargs);
        raised := Some(AttributeError);
      } else {
        LoadedKeys(b, file.value);
        d := new JSONAutoDict(path, Some(data.entries), saveOnExit, driver, kwargs);
      }
    } else {
      d := new JSONAutoDict(path, None, saveOnExit, driver, kwargs);
    }
  }

  /** The source as written: a file that is not a JSON object makes the
      constructor raise, and the half-built object, whose flag is set by
      default, then writes its keyword entries over that file when it is
      collected. */
  method FailedOpenThenDel(path: string, file: Value, kwargs: Entries, saveOnExit: bool := true,
                           driver: Option<Backend> := None)
    returns (d: JSONAutoDict, raised: Option<PyError>)
    requires !file.Dict? && DistinctKeys(kwargs)
    ensures raised == Some(AttributeError)
    ensures saveOnExit ==> d.saves == [SaveRecord(path, DriverDumps(d.driver, Dict(true, kwargs), None))]
    ensures saveOnExit && StandardLeaves(Dict(true, kwargs)) ==>
      d.saves[0].written.Ok? && d.saves[0].written.value.document == Rendered(Dict(true, kwargs))
    ensures !saveOnExit ==> d.saves == []
  {
    d, raised := Open(path, Some(file), saveOnExit, driver, kwargs);
    var delRaised := d.Del();
    DriverDumpsRenders(d.driver, Dict(true, kwargs), None);
  }

  /** Every driver's dump succeeds exactly on documents whose leaves it can
      write and then hands over the rendered document. */
  lemma DriverDumpsRenders(b: Backend, doc: Value, indent: Option<int>)
    ensures DriverDumps(b, doc, indent).Ok? <==> StandardLeaves(doc)
    ensures DriverDumps(b, doc, indent).Ok? ==> DriverDumps(b, doc, indent).value.document == Rendered(doc)
  {
  }

  /** The constructor with the flag stored only once the file has been
      loaded: an object whose loading fails has its flag clear. Whenever
      loading succeeds it builds what Open builds. */
  method OpenGuarded(path: string, file: Option<Value>, saveOnExit: bool := true,
                     driver: Option<Backend> := None, kwargs: Entries := [])
    returns (d: JSONAutoDict, raised: Option<PyError>)
    requires DistinctKeys(kwargs) && (file.Some? && file.value.Dict? ==> DistinctKeys(file.value.entries))
    ensures fresh(d) && d.Valid() && d.saves == [] && d.path == path
    ensures d.saveOnExit == (saveOnExit && raised.None?)
    ensures d.driver == if driver.None? then Json else driver.value
    ensures raised.Some? <==> file.Some? && !file.value.Dict?
    ensures raised.Some? ==> raised.value == AttributeError
    ensures file.None? || raised.Some? ==> d.entries == kwargs
    ensures raised.None? && file.Some? ==> d.entries == Merged(kwargs, DriverLoad(d.driver, file.value).entries)
  {
    d, raised := Open(path, file, false, driver, kwargs);
    if raised.None? {
      d.saveOnExit := saveOnExit;
    }
  }

  /** With the guarded constructor, a file that fails to load is never
      written: collecting the half-built object saves nothing. */
  method GuardedFailedOpenThenDel(path: string, file: Value, kwargs: Entries, saveOnExit: bool := true,
                                  driver: Option<Backend> := None)
    returns (d: JSONAutoDict, raised: Option<PyError>)
    requires !file.Dict? && DistinctKeys(kwargs)
    ensures raised == Some(AttributeError)
    ensures d.saves == [] && d.entries == kwargs
  {
    d, raised := OpenGuarded(path, Some(file), saveOnExit, driver, kwargs);
    var delRaised := d.Del();
  }

  /** tests/json_drivers/test_base.py, test_init: a path that does not exist
      gives an empty dict. */
  method MissingFileScenario(path: string) returns (d: JSONAutoDict)
    ensures d.entries == [] && d.saves == [] && d.driver == Json
  {
    var raised;
    d, raised := Open(path, None, false, Some(Json));
  }

  /** The defaults: with no arguments but the path, a JSONAutoDict uses
      DefaultJSONDriver, `save()` writes on one line (indent None), and the
      flag is set, so collecting the object writes it once more. */
  method DefaultsScenario(path: string) returns (d: JSONAutoDict)
    ensures d.driver == Json && |d.saves| == 2 && !d.saveOnExit
    ensures forall i :: 0 <= i < 2 ==> d.saves[i].written.Ok? && d.saves[i].written.value.indent == None
  {
    var raised;
    d, raised := Open(path, None);
    assert StandardLeaves(Dict(true, d.entries));
    raised := d.Save();
    raised := d.Del();
  }

  /** tests/json_drivers/test_base.py, test_autosave: a dict opened with
      save_on_exit=True, given an entry and left through `with`, is written
      once on one line (indent None) with that entry, and is not written
      again when collected. Dropping a second such dict without `with`
      writes it once from `__del__`. */
  method AutosaveScenario(path: string, kwargs: Entries) returns (first: JSONAutoDict, second: JSONAutoDict)
    requires StandardLeaves(Dict(true, kwargs)) && DistinctKeys(kwargs)
    ensures |first.saves| == 1 && first.saves[0].path == path && first.saves[0].written.Ok?
    ensures first.saves[0].written.value.indent == None
    ensures var doc := first.saves[0].written.value.document;
      doc.Dict? && HasKey(doc.entries, "key") && Lookup(doc.entries, "key") == Str("value")
    ensures |second.saves| == 1 && second.saves[0].written.Ok? && !second.saveOnExit
  {
    var raised;
    first, raised := Open(path, None, true, Some(Json), kwargs);
    first.SetItem("key", Str("value"));
    var es := first.entries;
    assert StandardLeaves(Dict(true, es)) by {
      SetEntryLeaves(kwargs, "key", Str("value"));
    }
    first.ExitThenDel();
    SetEntryLookup(kwargs, "key", Str("value"), "key");
    RenderedLookup(es, "key");

    second, raised := Open(path, None, true, Some(Json), kwargs);
    raised := second.Del();
  }

  /** Assigning a value without non-JSON leaves keeps StandardLeaves. */
  lemma {:induction false} SetEntryLeaves(es: Entries, k: string, v: Value)
    requires StandardLeaves(Dict(true, es)) && StandardLeaves(v)
    ensures StandardLeaves(Dict(true, SetEntry(es, k, v)))
  {
    if es != [] && es[0].0 != k {
      assert StandardLeaves(Dict(true, es[1..])) by {
        assert forall i :: 0 <= i < |es[1..]| ==> es[1..][i] == es[i + 1];
      }
      SetEntryLeaves(es[1..], k, v);
      var tail := SetEntry(es[1..], k, v);
      assert forall i :: 1 <= i < |[es[0]] + tail| ==> ([es[0]] + tail)[i] == tail[i - 1];
    } else if es != [] {
      assert forall i :: 1 <= i < |es| ==> ([(k, v)] + es[1..])[i] == es[i];
    }
  }

  /** A key reads in the rendered dict as its rendered value. */
  lemma {:induction false} RenderedLookup(es: Entries, k: string)
    requires HasKey(es, k)
    ensures HasKey(Rendered(Dict(true, es)).entries, k)
    ensures Lookup(Rendered(Dict(true, es)).entries, k) == Rendered(Lookup(es, k))
  {
    var rs := Rendered(Dict(true, es)).entries;
    if es[0].0 != k {
      RenderedLookup(es[1..], k);
      assert rs[1..] == Rendered(Dict(true, es[1..])).entries;
    }
  }
}
