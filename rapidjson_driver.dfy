/** RapidJSONDriver of autodict/json_drivers/rapidjson.py. With
    `datetime_mode=DM_ISO8601` and `uuid_mode=UM_CANONICAL` rapidjson writes
    dates, times, datetimes and UUIDs itself; `default` sees only the rest. */
module RapidJsonDriver {
  import opened Values
  import opened BaseDriver
  import Upgrade

  /** The driver's own TYPES_SERIALIZE, equal to the standard one. */
  const TypesSerialize: Table := [(DateTime, IsoFormat), (Date, IsoFormat), (Time, IsoFormat), (Uuid, StrOf)]

  /** RapidJSONDriver.default: first match over the datetime, date, time and
      UUID entries, TypeError for anything else. */
  function Default(v: Value): (r: Result<Value>)
    ensures r == if v.Ext? && v.kind in StandardKinds then Ok(Str(v.text)) else Err(TypeError)
    ensures v.Ext? && v.kind == DateTime ==> FirstMatch(TypesSerialize, v, 0) == Some(0)
  {
    TableDefault(TypesSerialize, v)
  }

  /** RapidJSONDriver.dumps and dump: an indent of None is replaced by 0
      before the call; any other indent is passed on. */
  function Dumps(doc: Value, indent: Option<int>): (r: Result<Dumped>)
    ensures r.Ok? <==> StandardLeaves(doc)
    ensures r.Ok? ==> r.value.document == Rendered(doc)
    ensures r.Ok? && indent.None? ==> r.value.indent == Some(0)
    ensures r.Ok? && indent.Some? ==> r.value.indent == indent
    ensures r.Err? ==> r.error == TypeError
  {
    var width := if indent.None? then 0 else indent.value;
    assert StandardRule(StandardKinds, TypesSerialize) by {
      forall k: ExtKind, t: string
        ensures EncodeLeaf(StandardKinds, TypesSerialize, k, t) == if k in StandardKinds then Ok(Str(t)) else Err(TypeError)
      {
        assert k !in StandardKinds ==> EncodeLeaf(StandardKinds, TypesSerialize, k, t) == Default(Ext(k, t));
      }
    }
    EncodeRenders(StandardKinds, TypesSerialize, StandardKinds, doc);
    match Encode(StandardKinds, TypesSerialize, doc)
    case Ok(d) => Ok(Dumped(d, Some(width)))
    case Err(e) => Err(e)
  }

  /** RapidJSONDriver.object_hook and load / loads: rapidjson decodes with
      the driver's own hook, which makes an AutoDict of each object. */
  function Load(w: Value): (r: Value)
    ensures r == Upgrade.Upgraded(w)
    ensures Upgrade.AllAuto(r) && Plain(r) == Plain(w)
  {
    DecodeIsUpgrade(w);
    Upgrade.UpgradedAllAuto(w);
    Upgrade.UpgradeKeepsEquality(w);
    DecodeWith(ObjectHook, w)
  }
}
