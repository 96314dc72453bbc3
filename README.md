# AutoDict, modelled in Dafny

AutoDict is a Python `dict` subclass. Reading a missing key creates an
empty AutoDict at that key, so `d[a][b][c] = v` builds the intermediate
levels itself. `contains(*keys)` tests a path of keys, and `[k1, k2] in d`
does the same for a list of keys.

A JSONAutoDict ties an AutoDict to a JSON file:

- It fills itself from the file when the file exists.
- It writes itself back on `__exit__` or `__del__` when `save_on_exit` is
  set.
- Serialising and parsing go through a driver: the built-in json library,
  ujson, orjson, python-rapidjson or simplejson.
- Each driver turns dates, times, datetimes and UUIDs into text with its
  `default` hook. When it loads, every JSON object becomes an AutoDict.

The older `autodict/autodict.py` is a separate version. It tags every
AutoDict with the entry `"__type__": "AutoDict"` and recognises that tag
when it loads.

## How the model is built

- **Values** (`values.dfy`): a Python value is a `Value` datatype. A dict
  is a sequence of entries in insertion order with distinct keys, plus a
  flag that tells an AutoDict from a plain dict. `Plain` erases that flag;
  it is what Python's `==` compares. Item assignment, lookup and the bulk
  copy `for k, v in data.items(): self[k] = v` are functions on entries,
  with their lookup laws proved.
- **AutoDicts** (`auto_dict.dfy`): the AutoDict of
  `autodict/implementation.py`. `__missing__`, `__getitem__`,
  `__setitem__` and nested assignment `d[k1]...[kn] = v` update the
  entries of a `class`. `contains` and `__contains__` are functions. They
  are proved against `Resolve`, which looks a path up without creating
  anything.
- **Upgrade** (`upgrade.dfy`): `upgrade_dicts` of the ujson and orjson
  drivers is a method with loops. It is proved equal to the function
  `Upgraded`, which is shown to make every dict an AutoDict and to be
  idempotent. It also keeps every value `==` to the input.
- **BaseDriver** (`base_driver.dfy`): the `default` hook is a first-match
  scan of an ordered table, with `datetime` an instance of `date`.
  Encoding checks every leaf, fails with `TypeError` at the first leaf
  nothing can write, and otherwise gives the rendered document. The
  `object_hook` load is an AutoDict-building fold. Dumping and then
  loading gives back the rendered document with every dict an AutoDict.
- **UltraJsonDriver, OrjsonDriver, RapidJsonDriver, SimpleJsonDriver**
  (`*_driver.dfy`): each driver's table, its default indent and its load.
- **JsonAutoDicts** (`json_auto_dict.dfy`): the JSONAutoDict class of
  `autodict/json_drivers/base.py`. It records every save together with
  what the driver was asked to write. Opening a file that does not hold a
  JSON object returns the half-built object with the error, because
  Python still collects it (see Findings).
- **Legacy** (`legacy.dfy`): the tagging AutoDict, its encoder and
  decoder, and its JSONAutoDict. The main result is that loading the
  dumped document restores every tagged dict.

## Model

| member | source | states |
|---|---|---|
| Values.MergeInto | autodict/json_drivers/base.py:181-184 | the copy loop `for k, v in data.items(): self[k] = v` yields exactly `Merged(base, over)` |
| Values.MergedLookup | autodict/json_drivers/base.py:174-184 | after the copy, the keys are those of both dicts and stay distinct; a loaded key reads as in the file, any other key as before |
| AutoDicts.AutoDict.constructor | autodict/implementation.py:7-9 | a new AutoDict holds exactly the entries it was built from, whose keys are distinct as in any dict (`Valid`, kept by every method below) |
| AutoDicts.AutoDict.Missing | autodict/implementation.py:11-21 | `__missing__` stores a fresh empty AutoDict at the key and returns that same value |
| AutoDicts.AutoDict.GetItem | autodict/implementation.py:11-21 | `d[k]` on a present key returns its value and changes nothing; on an absent key it appends `k: AutoDict()` and returns it; afterwards the key is present and reads as the returned value |
| AutoDicts.AutoDict.SetItem | tests/test_autodict.py:47 | `d[k] = v` overwrites the key in place or appends it |
| AutoDicts.AutoDict.Assign | autodict/implementation.py:11-21 | `d[k1]...[kn] = v` leaves the dict as `AssignPath` computes, or raises and leaves it unchanged |
| AutoDicts.AssignPathResolves | autodict/implementation.py:11-21 | along a path of AutoDicts or absent keys, nested assignment succeeds; it stores `v` at the path, makes every intermediate level an AutoDict and leaves all other top-level keys as they were |
| AutoDicts.AssignPathFrame | autodict/implementation.py:11-21 | at every level along the path, each sibling of the key taken there reads after `d[k1]...[kn] = v` as it did before, or stays absent |
| AutoDicts.AssignPathDistinct | autodict/implementation.py:11-21 | nested assignment keeps the keys of the dict it is made on distinct |
| AutoDicts.AssignPathContains | autodict/implementation.py:23-49 | after `d[k1]...[kn] = v` along such a path, `d.contains(k1, ..., kn)` is True |
| AutoDicts.FreshPath | autodict/implementation.py:11-21 | on an empty AutoDict, `d[a][b] = v` builds `{a: AutoDict({b: v})}` |
| AutoDicts.Contains | autodict/implementation.py:23-49 | `contains()` with no keys is the only call that fails with IndexError (from `keys[0]`); any other failure is a TypeError from the native `in` on a child, so it needs at least two keys |
| AutoDicts.ContainsResolve | autodict/implementation.py:23-49 | a path that resolves is always contained; along AutoDicts only, `contains` is True exactly when the path resolves |
| AutoDicts.In | autodict/implementation.py:51-54 | a single key is Python's own non-creating membership test; only a list query can fail, and the empty list fails with IndexError |
| AutoDicts.MissingChildrenScenario | tests/test_autodict.py:13-23 | a key starts out absent; `d[key][key][key] = value` makes both intermediate levels AutoDicts and stores the value |
| AutoDicts.AssignFixture | tests/test_autodict.py:46-48 | the two assignments of test_contains build a fixed three-level dict |
| AutoDicts.FixtureMembership | tests/test_autodict.py:50-51 | `key in d` holds and `value in d` does not |
| AutoDicts.FixtureDeep | tests/test_autodict.py:52-53 | `d.contains(section, section, key)` holds and `d.contains(section, key, key)` does not |
| AutoDicts.FixturePlainChild | tests/test_autodict.py:54-55 | `[key, key] in d` holds through a plain child; `[key, key, key] in d` does not, because the tuple is not a key |
| AutoDicts.ContainsScenario | tests/test_autodict.py:41-55 | all six answers of test_contains, from the dict the test builds |
| Upgrade.UpgradeDicts | autodict/json_drivers/ujson.py:75-98 | the loops of `upgrade_dicts` compute exactly `Upgraded(v)` |
| Upgrade.SetEntryAt | autodict/json_drivers/ujson.py:91-92 | with distinct keys, `obj[k] = ...` at the current key of the iteration is the positional update the loop makes |
| Upgrade.UpgradeShape | autodict/json_drivers/orjson.py:83-91 | a dict becomes an AutoDict with the same keys, each value upgraded; a list keeps its length, each item upgraded; anything else is returned unchanged |
| Upgrade.UpgradedAllAuto | autodict/json_drivers/ujson.py:90-93 | after upgrading, every dict at any depth is an AutoDict |
| Upgrade.UpgradeFixpoint | autodict/json_drivers/ujson.py:90-98 | a value whose dicts are all AutoDicts is left as it is |
| Upgrade.UpgradeIdempotent | autodict/json_drivers/ujson.py:90-98 | upgrading twice is the same as upgrading once |
| Upgrade.UpgradeKeepsEquality | autodict/json_drivers/orjson.py:83-91 | the upgraded value is `==` to the input |
| BaseDriver.FirstMatch | autodict/json_drivers/base.py:101-104 | the scan returns the first table entry the value is an instance of, or reports that none matches |
| BaseDriver.TableDefault | autodict/json_drivers/base.py:101-106 | `default` raises TypeError exactly when no table class matches; otherwise it applies the operation of the first match |
| BaseDriver.Default | autodict/json_drivers/base.py:81-106 | DefaultJSONDriver.default writes a datetime, date, time or UUID as its standard text and raises TypeError for anything else |
| BaseDriver.StandardOrder | autodict/json_drivers/base.py:81-86 | a datetime is also a date, and the datetime entry is met first; a date is handled by its own `isoformat` entry |
| BaseDriver.ObjectHook | autodict/json_drivers/base.py:127-140 | `object_hook` wraps the decoded object as an AutoDict with the same entries |
| BaseDriver.DecodeIsUpgrade | autodict/json_drivers/base.py:142-151 | parsing with `object_hook` applied to each object gives the same tree as `upgrade_dicts` |
| BaseDriver.Load | autodict/json_drivers/base.py:142-151 | `load` makes every dict an AutoDict and keeps the document `==` to the parsed one |
| BaseDriver.FirstError | autodict/json_drivers/base.py:108-125 | the error reported for a container is that of one of its members, and there is none exactly when all members succeed |
| BaseDriver.StandardRules | autodict/json_drivers/base.py:88-106 | a driver with the four-entry table and no native types, or with native support and an empty table, writes exactly the standard leaves |
| BaseDriver.EncodeRenders | autodict/json_drivers/base.py:108-125 | under such a rule, encoding succeeds exactly when every leaf is writable and then yields the rendered document; otherwise it raises TypeError |
| BaseDriver.Dumps | autodict/json_drivers/base.py:123-125 | `dumps` succeeds exactly on documents whose leaves are standard, writes the rendered document at the given indent, and otherwise raises TypeError |
| BaseDriver.RenderedIsPlain | autodict/json_drivers/base.py:123-125 | a written document holds no AutoDict and no non-JSON object |
| BaseDriver.DumpThenLoad | autodict/json_drivers/base.py:123-151 | dumping a standard document and loading it back gives a value `==` to the rendered document, with every dict an AutoDict |
| UltraJsonDriver.Default | autodict/json_drivers/ujson.py:25-50 | the ujson table writes the four standard classes as text, datetime by its own first entry, and raises TypeError otherwise |
| UltraJsonDriver.Dumps | autodict/json_drivers/ujson.py:52-73 | ujson writes the rendered document; no indent becomes indent 0 and a given indent is kept |
| UltraJsonDriver.Load | autodict/json_drivers/ujson.py:100-114 | ujson loads through DefaultJSONDriver: every dict becomes an AutoDict |
| OrjsonDriver.DefaultOf | autodict/json_drivers/orjson.py:24-42 | `default` reads the class's table, succeeds exactly when some entry matches, and otherwise raises TypeError |
| OrjsonDriver.Default | autodict/json_drivers/orjson.py:22-42 | with the driver's empty table, `default` always raises TypeError |
| OrjsonDriver.RegisteredSubclassDefault | tests/json_drivers/test_orjson.py:19-34 | an unknown class fails with the driver and gives "123" once a subclass registers it; that subclass still writes datetimes |
| OrjsonDriver.Dumps | autodict/json_drivers/orjson.py:44-66 | orjson writes the standard classes natively; no indent stays compact and any indent becomes OPT_INDENT_2 |
| OrjsonDriver.Load | autodict/json_drivers/orjson.py:93-107 | orjson loads through DefaultJSONDriver: every dict becomes an AutoDict |
| RapidJsonDriver.Default | autodict/json_drivers/rapidjson.py:26-51 | the rapidjson table writes the four standard classes as text and raises TypeError otherwise |
| RapidJsonDriver.Dumps | autodict/json_drivers/rapidjson.py:53-92 | rapidjson writes the rendered document; no indent becomes indent 0 |
| RapidJsonDriver.Load | autodict/json_drivers/rapidjson.py:94-118 | rapidjson's own `object_hook` makes every dict an AutoDict, as the default driver does |
| SimpleJsonDriver.Default | autodict/json_drivers/simplejson.py:26-51 | the simplejson table writes the four standard classes as text and raises TypeError otherwise |
| SimpleJsonDriver.Dumps | autodict/json_drivers/simplejson.py:53-74 | simplejson writes the rendered document; no indent becomes indent 0 |
| SimpleJsonDriver.Load | autodict/json_drivers/simplejson.py:76-100 | simplejson's own `object_hook` makes every dict an AutoDict, as the default driver does |
| JsonAutoDicts.DriverLoadSame | autodict/json_drivers/base.py:176-182 | every driver loads a file to the same value; an object loads to an AutoDict with the same keys |
| JsonAutoDicts.InitialEntriesLookup | autodict/json_drivers/base.py:174-184 | without a file the dict holds the keyword entries; with one, file entries override keyword entries and the keys stay distinct |
| JsonAutoDicts.JSONAutoDict.constructor | autodict/json_drivers/base.py:158-184 | a new JSONAutoDict keeps its path and flag (set by default), falls back to DefaultJSONDriver, has not saved yet and holds the keyword entries merged with the loaded ones, with distinct keys |
| JsonAutoDicts.JSONAutoDict.SetItem | tests/json_drivers/test_base.py:195 | item assignment changes only the entries |
| JsonAutoDicts.JSONAutoDict.Save | autodict/json_drivers/base.py:186-193 | `save` records one dump of the whole dict by its driver to its path at the given indent (None by default), and raises what that dump raises |
| JsonAutoDicts.JSONAutoDict.Exit | autodict/json_drivers/base.py:202-207 | with the flag set, `__exit__` saves once at the default indent and clears the flag exactly when the save succeeds; without it, nothing happens |
| JsonAutoDicts.JSONAutoDict.Del | autodict/json_drivers/base.py:209-214 | `__del__` behaves as `__exit__` |
| JsonAutoDicts.JSONAutoDict.ExitThenDel | autodict/json_drivers/base.py:202-214 | after a successful `__exit__`, `__del__` writes nothing more, so the file is written once |
| JsonAutoDicts.Open | autodict/json_drivers/base.py:174-184 | a file that is not a JSON object raises AttributeError at `data.items()`, and the half-built object is still there with its flag, driver and path set and only the keyword entries; otherwise the dict holds the keyword entries with the driver-loaded file entries copied over them |
| JsonAutoDicts.FailedOpenThenDel | autodict/json_drivers/base.py:174-214 | when loading fails, collecting the half-built object writes the keyword entries over the file whenever the flag is set, which it is by default |
| JsonAutoDicts.OpenGuarded | autodict/json_drivers/base.py:174-184 | the constructor with the flag stored after loading: it builds what Open builds, except that the flag is clear when loading fails |
| JsonAutoDicts.GuardedFailedOpenThenDel | autodict/json_drivers/base.py:209-214 | with the guarded constructor, a file that fails to load is never written |
| JsonAutoDicts.DefaultsScenario | autodict/json_drivers/base.py:158-193 | with only a path, the dict uses DefaultJSONDriver, `save()` writes on one line, and the flag is set, so collecting it writes again |
| JsonAutoDicts.MissingFileScenario | tests/json_drivers/test_base.py:154-159 | a path that does not exist gives an empty dict |
| JsonAutoDicts.AutosaveScenario | tests/json_drivers/test_base.py:189-215 | a `with` block saves once without indent, including the key set inside it; a dropped object saves itself on `__del__` |
| Legacy.Tagged | autodict/autodict.py:16-23 | the constructor's entries carry `"__type__": "AutoDict"` and otherwise read as the given entries |
| Legacy.AutoDict.constructor | autodict/autodict.py:16-23 | a new legacy AutoDict holds its entries tagged |
| Legacy.AutoDict.Missing | autodict/autodict.py:25-35 | `__missing__` stores and returns a fresh tagged AutoDict |
| Legacy.AutoDict.GetItem | autodict/autodict.py:25-35 | reading a missing key appends a tagged empty AutoDict; a present key reads unchanged |
| Legacy.EncoderDefault | autodict/autodict.py:42-45 | the legacy encoder writes an AutoDict as a plain dict with the same entries and raises TypeError for anything else |
| Legacy.EncoderDefaultOnLeaves | autodict/autodict.py:42-45 | on non-JSON leaves the legacy encoder is json's own default, which registers nothing |
| Legacy.Decoder | autodict/autodict.py:47-61 | the decoder returns an AutoDict exactly when the object carries the tag, and keeps the entries |
| Legacy.LegacyRoundTrip | autodict/autodict.py:47-61 | decoding the plain form of a well-tagged value gives back the value: exactly the tagged dicts become AutoDicts again |
| Legacy.DumpEntries | autodict/autodict.py:97-105 | dumping succeeds exactly when no leaf is a non-JSON object, and writes the dict's plain form |
| Legacy.JSONAutoDict.constructor | autodict/autodict.py:68-95 | a legacy JSONAutoDict, whose flag is clear by default, holds its tagged keyword entries with the loaded entries copied over them, with distinct keys |
| Legacy.JSONAutoDict.Save | autodict/autodict.py:97-105 | `save` records one dump of the entries at the given indent (2 by default) and raises TypeError when it fails |
| Legacy.JSONAutoDict.Exit | autodict/autodict.py:114-119 | with the flag set, `__exit__` saves at indent 2 and clears the flag when the save succeeds |
| Legacy.JSONAutoDict.Del | autodict/autodict.py:121-125 | `__del__` saves at indent 2 when the flag is set and never clears it |
| Legacy.Open | autodict/autodict.py:85-95 | a non-object file raises AttributeError and leaves a half-built object holding the tagged keyword entries; otherwise the decoded file entries are copied over the tagged keyword entries |
| Legacy.FailedOpenThenDel | autodict/autodict.py:85-125 | with the flag set, collecting the half-built object of a failed load writes the tagged keyword entries over the file |
| Legacy.DefaultsScenario | autodict/autodict.py:68-119 | with only a path, the flag is clear, so leaving `with` writes nothing, and `save()` writes with indent 2 |
| Legacy.TeardownScenario | autodict/autodict.py:114-125 | closing a `with` block saves once at indent 2; calling `__del__` twice on an object whose flag is set saves twice |
| Legacy.SaveThenReload | autodict/autodict.py:91-105 | a well-tagged dict that is saved and loaded back has the same entries, and each of its values decodes to itself |

## Left out

- JSON text is not modelled. A dump yields the document it would write and
  its indent; a load starts from the parsed document. Parse errors, the
  exact whitespace and the `ensure_ascii` escaping are not part of this
  model.
- Files are not modelled. The path is a string. A file that exists is
  given as its parsed content, and an absent file as `None`. The
  `fp`-type dispatch between a path, a text stream and a byte stream is
  left out, and so are `mkdir` of the parent directory and the partial
  file left by a dump that fails. `load` and `loads` are the same
  function here. orjson returning `bytes` instead of `str` is not
  distinguished.
- `isoformat()` and `str()` are not computed. An `Ext` value carries its
  standard text, and the `IsoFormat` and `StrOf` operations both return
  it. rapidjson's DM_ISO8601/UM_CANONICAL modes and orjson's native
  output are assumed to give that same text.
- A `default` hook that returns something other than a string (a dict or a
  list to be encoded further) is not modelled. Every table operation here
  returns a string.
- Floats are kept as their literal and only passed through.
- Dict keys are strings. So `tuple in dict` on a plain child finds
  nothing. `__contains__` (autodict/implementation.py:51-54) hands any
  non-list object to `dict.__contains__`. A hashable non-string object
  finds nothing there. An unhashable one, such as `{} in d` or
  `set() in d`, raises TypeError. `Query` carries only strings and lists
  of strings, so neither case is represented.
- Object identity is not modelled: children are values. `upgrade_dicts`
  mutates its input in place and the model does not capture that: the
  method returns the upgraded value and leaves the original untouched.
  Two references to one child dict are not modelled either.
- `__del__` runs when the object is collected, which the model cannot
  time; it is an explicit call. `__enter__` only returns `self` and is not
  modelled.
- Legacy JSONAutoDict: a custom `encoder`/`decoder` and the positional
  `*args` are not modelled; the defaults AutoDictEncoder and
  `AutoDictEncoder.decoder` are fixed.
- OrjsonDriver.Dumps: succeeds on every document whose leaves are
  standard. orjson itself also raises on an integer outside the 64-bit
  range and on nesting deeper than 254 levels; integers here are unbounded
  and depth is not limited, so neither error is modelled. orjson also
  refuses a `datetime.time` that carries a `tzinfo` (JSONEncodeError, a
  TypeError) without calling `default`. An `Ext` leaf of kind `Time` does
  not record whether it is timezone-aware, so the model counts such a
  leaf as writable and Dumps reports success where orjson raises.
- The other drivers' own limits on integer width and nesting depth are
  not modelled either, for the same reason.
- A file that exists but does not parse makes the constructor raise
  too, and the half-built object saves over it the same way
  (JsonAutoDicts.FailedOpenThenDel); parse errors are not modelled, so
  only the non-object case is shown.
- Python's `==` on dicts ignores key order, and `assertDictEqual` relies
  on that. `Plain` equality here is order-sensitive, which is stronger
  wherever it is proved.
- JsonAutoDicts.JSONAutoDict.ExitThenDel: says nothing of the case where
  the save in `__exit__` raises. In that case the flag stays set and
  `__del__` tries again, which Exit's and Del's own contracts state.

## Findings

| source | as written | input that shows it | evidently intended | confidence | as-written member | corrected member |
|---|---|---|---|---|---|---|
| autodict/json_drivers/base.py:174-184 | `__init__` stores the save-on-exit flag (True by default), the driver and the path before it loads the file; when `data.items()` raises, the half-built object's `__del__` (base.py:209-214) saves its keyword entries over the file that failed to load. The legacy class (autodict/autodict.py:85-125) does the same when its flag is set | `JSONAutoDict(path)` on a file holding `[1, 2]`: AttributeError, and the file is then overwritten with `{}` | a constructor that raises leaves the file alone: the flag is stored only once loading has succeeded | medium; not executed | JsonAutoDicts.FailedOpenThenDel | JsonAutoDicts.OpenGuarded |
