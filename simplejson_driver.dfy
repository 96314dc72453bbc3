/** SimpleJSONDriver of autodict/json_drivers/simplejson.py. simplejson has
    no native support for dates, times or UUIDs, so each reaches `default`. */
module SimpleJsonDriver {
  import opened Values
  import opened BaseDriver
  import Upgrade

  /** The driver's own TYPES_SERIALIZE, equal to the standard one. */
  const TypesSerialize: Table := [(DateTime, IsoFormat), (Date, IsoFormat), (Time, IsoFormat), (Uuid, StrOf)]

  /** SimpleJSONDriver.default: first match over the datetime, date, time
      and UUID entries, TypeError for anything else. */
  function Default(v: Value): (r: Result<Value>)
    ensures r == if v.Ext? && v.kind in StandardKinds then Ok(Str(v.text)) else Err(TypeError)
    ensures v.Ext? && v.kind == DateTime ==> FirstMatch(TypesSerialize, v, 0) == Some(0)
  {
    TableDefault(TypesSerialize, v)
  }

  /** SimpleJSONDriver.dumps and dump: an indent of None is replaced by 0
      before the call; any other indent is passed on. */
  function Dumps(doc: Value, indent: Option<int>): (r: Result<Dumped>)
    ensures r.Ok? <==> StandardLeaves(doc)
    ensures r.Ok? ==> r.value.document == Rendered(doc)
    ensures r.Ok? && indent.None? ==> r.value.indent == Some(0)
    ensures r.Ok? && indent.Some? ==> r.value.indent == indent
    ensures r.Err? ==> r.error == TypeError
  {
    var width := if indent.None? then 0 else indent.value;
    assert StandardRule({}, TypesSerialize) by { StandardRules(); }
    EncodeRenders({}, TypesSerialize, StandardKinds, doc);
    match Encode({}, TypesSerialize, doc)
    case Ok(d) => Ok(Dumped(d, Some(width)))
    case Err(e) => Err(e)
  }

  /** SimpleJSONDriver.object_hook and load / loads: simplejson decodes with
      the driver's own hook, which makes an AutoDict of each object. */
  function Load(w: Value): (r: Value)
    ensures r == Upgrade.Upgraded(w)
    ensures Upgrade.AllAuto(r) && Plain(r) == Plain(w)
  {
    DecodeIsUpgrade(w);
    Upgrade.UpgradedAllAuto(w);
    Upgrade.UpgradeKeepsEquality(w);
    DecodeWith(ObjectHook, w)
  }
}
