/** OrjsonDriver of autodict/json_drivers/orjson.py. orjson writes dates,
    times, datetimes and UUIDs natively, and the driver's own table is empty.
    Its `upgrade_dicts` is Upgrade.UpgradeDicts. */
module OrjsonDriver {
  import opened Values
  import opened BaseDriver
  import Upgrade

  /** The driver's own, empty, TYPES_SERIALIZE. */
  const TypesSerialize: Table := []

  /** OrjsonDriver.default over a table: `cls.TYPES_SERIALIZE` is read at
      call time, so a subclass that overrides the table gets its entries. */
  function DefaultOf(table: Table, v: Value): (r: Result<Value>)
    ensures r.Ok? <==> exists i :: 0 <= i < |table| && IsInstance(v, table[i].0)
    ensures r.Err? ==> r.error == TypeError
  {
    TableDefault(table, v)
  }

  /** OrjsonDriver.default: nothing is registered, so every value raises
      TypeError. */
  function Default(v: Value): (r: Result<Value>)
    ensures r == Err(TypeError)
  {
    DefaultOf(TypesSerialize, v)
  }

  /** The subclass of tests/json_drivers/test_orjson.py:27-31. */
  const SubclassTable: Table := [(DateTime, IsoFormat), (Custom("UnknownType"), Constant("123"))]

  /** An instance of an unregistered class fails with the driver's table and
      gives "123" once a subclass registers that class; the subclass still
      writes a datetime by `isoformat`. */
  lemma RegisteredSubclassDefault(t: string)
    ensures Default(Ext(Custom("UnknownType"), t)) == Err(TypeError)
    ensures DefaultOf(SubclassTable, Ext(Custom("UnknownType"), t)) == Ok(Str("123"))
    ensures DefaultOf(SubclassTable, Ext(DateTime, t)) == Ok(Str(t))
    ensures DefaultOf(SubclassTable, Ext(Uuid, t)) == Err(TypeError)
  {
    assert FirstMatch(SubclassTable, Ext(Custom("UnknownType"), t), 0) == Some(1);
  }

  /** OrjsonDriver.dumps and dump: no indent writes compact output; any
      indent, whatever its width, selects OPT_INDENT_2. */
  function Dumps(doc: Value, indent: Option<int>): (r: Result<Dumped>)
    ensures r.Ok? <==> StandardLeaves(doc)
    ensures r.Ok? ==> r.value.document == Rendered(doc)
    ensures r.Ok? ==> r.value.indent == if indent.None? then None else Some(2)
    ensures r.Err? ==> r.error == TypeError
  {
    assert StandardRule(StandardKinds, TypesSerialize) by { StandardRules(); }
    EncodeRenders(StandardKinds, TypesSerialize, StandardKinds, doc);
    match Encode(StandardKinds, TypesSerialize, doc)
    case Ok(d) => Ok(Dumped(d, if indent.None? then None else Some(2)))
    case Err(e) => Err(e)
  }

  /** OrjsonDriver.load and loads hand over to DefaultJSONDriver. */
  function Load(w: Value): (r: Value)
    ensures r == Upgrade.Upgraded(w)
    ensures Upgrade.AllAuto(r) && Plain(r) == Plain(w)
  {
    BaseDriver.Load(w)
  }
}
