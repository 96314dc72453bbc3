/** DefaultJSONDriver of autodict/json_drivers/base.py, and the parts every
    driver shares: the first-match `default` over an ordered type table, the
    `object_hook` that turns each decoded JSON object into an AutoDict, and
    the JSON document a serialiser writes for a value. JSON text itself is
    not modelled: a decoded file is the value the parser builds before any
    hook runs, and a dump is the document written together with its indent. */
module BaseDriver {
  import opened Values
  import Upgrade

  /** The functions in a TYPES_SERIALIZE table: `t.isoformat()`, `str(t)`,
      and a function returning a fixed string (`lambda _: "123"`). */
  datatype Encoder = IsoFormat | StrOf | Constant(text: string)

  /** TYPES_SERIALIZE: a class-to-encoder dict, searched in insertion order. */
  type Table = seq<(ExtKind, Encoder)>

  /** `isinstance(v, t)`. datetime.datetime is a subclass of datetime.date. */
  predicate IsInstance(v: Value, t: ExtKind)
  {
    v.Ext? && (v.kind == t || (v.kind == DateTime && t == Date))
  }

  /** `op(v)` for an encoder `op` of the table. */
  function Apply(op: Encoder, v: Value): Value
    requires v.Ext?
  {
    match op
    case IsoFormat => Str(v.text)
    case StrOf => Str(v.text)
    case Constant(s) => Str(s)
  }

  /** The position of the first entry at or after `from` whose class `v` is
      an instance of. */
  function FirstMatch(table: Table, v: Value, from: nat): (r: Option<nat>)
    requires from <= |table|
    ensures r.Some? ==> from <= r.value < |table| && IsInstance(v, table[r.value].0)
    ensures r.Some? ==> forall j :: from <= j < r.value ==> !IsInstance(v, table[j].0)
    ensures r.None? ==> forall j :: from <= j < |table| ==> !IsInstance(v, table[j].0)
    decreases |table| - from
  {
    if from == |table| then None
    else if IsInstance(v, table[from].0) then Some(from)
    else FirstMatch(table, v, from + 1)
  }

  /** `default(obj)` over a table: the encoding of the first entry `obj` is
      an instance of, or TypeError when there is none. */
  function TableDefault(table: Table, v: Value): (r: Result<Value>)
    ensures r.Err? <==> forall j :: 0 <= j < |table| ==> !IsInstance(v, table[j].0)
    ensures r.Err? ==> r.error == TypeError
    ensures r.Ok? ==> exists i :: 0 <= i < |table| && IsInstance(v, table[i].0) &&
                                  (forall j :: 0 <= j < i ==> !IsInstance(v, table[j].0)) &&
                                  r.value == Apply(table[i].1, v)
  {
    match FirstMatch(table, v, 0)
    case Some(i) => Ok(Apply(table[i].1, v))
    case None => Err(TypeError)
  }

  /** DefaultJSONDriver.TYPES_SERIALIZE, in its order. */
  const StandardTable: Table := [(DateTime, IsoFormat), (Date, IsoFormat), (Time, IsoFormat), (Uuid, StrOf)]

  /** The classes the standard table names. */
  const StandardKinds: set<ExtKind> := {DateTime, Date, Time, Uuid}

  /** DefaultJSONDriver.default: a date, time, datetime or UUID gives its
      text form; any other value raises TypeError. */
  function Default(v: Value): (r: Result<Value>)
    ensures r == if v.Ext? && v.kind in StandardKinds then Ok(Str(v.text)) else Err(TypeError)
  {
    TableDefault(StandardTable, v)
  }

  /** A datetime is an instance of both the datetime and the date entries;
      the datetime entry, being first, is the one used. A date is matched by
      the date entry and encoded by `isoformat`. */
  lemma StandardOrder(t: string)
    ensures IsInstance(Ext(DateTime, t), StandardTable[0].0) && IsInstance(Ext(DateTime, t), StandardTable[1].0)
    ensures FirstMatch(StandardTable, Ext(DateTime, t), 0) == Some(0)
    ensures FirstMatch(StandardTable, Ext(Date, t), 0) == Some(1) && StandardTable[1].1 == IsoFormat
    ensures Default(Ext(Date, t)) == Ok(Str(t))
  {
  }

  /** DefaultJSONDriver.object_hook: an AutoDict holding exactly the decoded
      object's entries, in order. */
  function ObjectHook(es: Entries): (r: Value)
    ensures r.Dict? && r.isAuto && r.entries == es
  {
    Dict(true, es)
  }

  /** `json.load(..., object_hook=hook)`: the parser builds each object from
      its already-decoded members and hands it to `hook`, whose result takes
      its place; arrays and scalars are kept. */
  function DecodeWith(hook: Entries -> Value, w: Value): Value
  {
    match w
    case Dict(_, es) => hook(seq(|es|, i requires 0 <= i < |es| => (es[i].0, DecodeWith(hook, es[i].1))))
    case List(items) => List(seq(|items|, i requires 0 <= i < |items| => DecodeWith(hook, items[i])))
    case _ => w
  }

  /** Decoding with the AutoDict object hook upgrades every dict, as
      `upgrade_dicts` does after a plain parse. */
  lemma {:induction false} DecodeIsUpgrade(w: Value)
    ensures DecodeWith(ObjectHook, w) == Upgrade.Upgraded(w)
  {
    match w
    case Dict(_, es) =>
      forall i | 0 <= i < |es|
        ensures DecodeWith(ObjectHook, es[i].1) == Upgrade.Upgraded(es[i].1)
      {
        DecodeIsUpgrade(es[i].1);
      }
      assert DecodeWith(ObjectHook, w).entries == Upgrade.Upgraded(w).entries;
    case List(items) =>
      forall i | 0 <= i < |items|
        ensures DecodeWith(ObjectHook, items[i]) == Upgrade.Upgraded(items[i])
      {
        DecodeIsUpgrade(items[i]);
      }
      assert DecodeWith(ObjectHook, w).items == Upgrade.Upgraded(w).items;
    case _ =>
  }

  /** DefaultJSONDriver.load / loads on a parsed document `w`: every dict at
      any depth is an AutoDict, and the result compares equal to `w`. */
  function Load(w: Value): (r: Value)
    ensures r == Upgrade.Upgraded(w)
    ensures Upgrade.AllAuto(r) && Plain(r) == Plain(w)
  {
    DecodeIsUpgrade(w);
    Upgrade.UpgradedAllAuto(w);
    Upgrade.UpgradeKeepsEquality(w);
    DecodeWith(ObjectHook, w)
  }

  /** The text a value is expected to be written as: each date, time,
      datetime or UUID by its text form, each AutoDict as a plain dict. */
  function Rendered(v: Value): Value
  {
    match v
    case Ext(_, t) => Str(t)
    case Dict(_, es) => Dict(false, seq(|es|, i requires 0 <= i < |es| => (es[i].0, Rendered(es[i].1))))
    case List(items) => List(seq(|items|, i requires 0 <= i < |items| => Rendered(items[i])))
    case _ => v
  }

  /** Every leaf of a non-JSON class in `v` has a kind in `kinds`. */
  predicate LeavesIn(kinds: set<ExtKind>, v: Value)
  {
    match v
    case Ext(k, _) => k in kinds
    case Dict(_, es) => forall i :: 0 <= i < |es| ==> LeavesIn(kinds, es[i].1)
    case List(items) => forall i :: 0 <= i < |items| ==> LeavesIn(kinds, items[i])
    case _ => true
  }

  /** Every leaf of a non-JSON class in `v` is a date, time, datetime or UUID. */
  predicate StandardLeaves(v: Value)
  {
    LeavesIn(StandardKinds, v)
  }

  /** The first error among the results of encoding the members of a
      container, in order. */
  function FirstError(rs: seq<Result<Value>>): (r: Option<PyError>)
    ensures r.None? <==> forall i :: 0 <= i < |rs| ==> rs[i].Ok?
    ensures r.Some? ==> exists i :: 0 <= i < |rs| && rs[i] == Err(r.value)
  {
    if rs == [] then None
    else if rs[0].Err? then Some(rs[0].error)
    else FirstError(rs[1..])
  }

  /** How a serialiser writes one leaf of a non-JSON class: natively when the
      library supports its kind, otherwise by calling `default`. */
  function EncodeLeaf(native: set<ExtKind>, table: Table, k: ExtKind, t: string): Result<Value>
  {
    if k in native then Ok(Str(t)) else TableDefault(table, Ext(k, t))
  }

  /** The JSON document a serialiser writes for `v` (`json.dumps(v,
      default=...)` and its counterparts): dicts (AutoDicts included, being
      dict subclasses), lists and scalars as they are, each leaf of a
      non-JSON class by EncodeLeaf; an error raised inside a container
      stops the dump. */
  function Encode(native: set<ExtKind>, table: Table, v: Value): Result<Value>
  {
    match v
    case Ext(k, t) => EncodeLeaf(native, table, k, t)
    case Dict(_, es) =>
      var rs := seq(|es|, i requires 0 <= i < |es| => Encode(native, table, es[i].1));
      if FirstError(rs).Some? then Err(FirstError(rs).value)
      else Ok(Dict(false, seq(|es|, i requires 0 <= i < |es| => (es[i].0, rs[i].value))))
    case List(items) =>
      var rs := seq(|items|, i requires 0 <= i < |items| => Encode(native, table, items[i]));
      if FirstError(rs).Some? then Err(FirstError(rs).value)
      else Ok(List(seq(|rs|, i requires 0 <= i < |rs| => rs[i].value)))
    case _ => Ok(v)
  }

  /** A serialiser configuration writes exactly the leaves whose kind is in
      `kinds`, by their text form, and raises TypeError on any other. */
  ghost predicate LeafRule(native: set<ExtKind>, table: Table, kinds: set<ExtKind>)
  {
    forall k: ExtKind, t: string {:trigger EncodeLeaf(native, table, k, t)} ::
      EncodeLeaf(native, table, k, t) == if k in kinds then Ok(Str(t)) else Err(TypeError)
  }

  /** Writes exactly the date, time, datetime and UUID leaves. */
  ghost predicate StandardRule(native: set<ExtKind>, table: Table)
  {
    LeafRule(native, table, StandardKinds)
  }

  /** Both configurations the drivers use follow the rule: no native support
      with the standard table, and native support for the standard classes
      with an empty table. */
  lemma StandardRules()
    ensures StandardRule({}, StandardTable)
    ensures StandardRule(StandardKinds, [])
  {
    forall k: ExtKind, t: string
      ensures EncodeLeaf({}, StandardTable, k, t) == if k in StandardKinds then Ok(Str(t)) else Err(TypeError)
    {
      assert EncodeLeaf({}, StandardTable, k, t) == Default(Ext(k, t));
    }
  }

  /** Under such a configuration a dump succeeds exactly when every non-JSON
      leaf has an accepted kind, and then writes the rendered value;
      otherwise it raises TypeError. */
  lemma {:induction false} EncodeRenders(native: set<ExtKind>, table: Table, kinds: set<ExtKind>, v: Value)
    requires LeafRule(native, table, kinds)
    ensures Encode(native, table, v) == if LeavesIn(kinds, v) then Ok(Rendered(v)) else Err(TypeError)
  {
    match v
    case Ext(k, t) =>
      assert EncodeLeaf(native, table, k, t) == if k in kinds then Ok(Str(t)) else Err(TypeError);
    case Dict(_, es) =>
      var rs := seq(|es|, i requires 0 <= i < |es| => Encode(native, table, es[i].1));
      forall i | 0 <= i < |es|
        ensures rs[i] == if LeavesIn(kinds, es[i].1) then Ok(Rendered(es[i].1)) else Err(TypeError)
      {
        EncodeRenders(native, table, kinds, es[i].1);
      }
      if LeavesIn(kinds, v) {
        assert FirstError(rs).None?;
        assert Encode(native, table, v).value.entries == Rendered(v).entries;
      } else {
        assert !rs[FirstBadEntry(kinds, es)].Ok?;
      }
    case List(items) =>
      var rs := seq(|items|, i requires 0 <= i < |items| => Encode(native, table, items[i]));
      forall i | 0 <= i < |items|
        ensures rs[i] == if LeavesIn(kinds, items[i]) then Ok(Rendered(items[i])) else Err(TypeError)
      {
        EncodeRenders(native, table, kinds, items[i]);
      }
      if LeavesIn(kinds, v) {
        assert FirstError(rs).None?;
        assert Encode(native, table, v).value.items == Rendered(v).items;
      } else {
        assert !rs[FirstBadItem(kinds, items)].Ok?;
      }
    case _ =>
  }

  /** A member of a dict that breaks LeavesIn. */
  function FirstBadEntry(kinds: set<ExtKind>, es: Entries): (i: nat)
    requires !LeavesIn(kinds, Dict(false, es))
    ensures i < |es| && !LeavesIn(kinds, es[i].1)
  {
    if !LeavesIn(kinds, es[0].1) then 0
    else
      assert !LeavesIn(kinds, Dict(false, es[1..])) by {
        var j :| 0 <= j < |es| && !LeavesIn(kinds, es[j].1);
        assert es[1..][j - 1] == es[j];
      }
      1 + FirstBadEntry(kinds, es[1..])
  }

  /** An element of a list that breaks LeavesIn. */
  function FirstBadItem(kinds: set<ExtKind>, items: seq<Value>): (i: nat)
    requires !LeavesIn(kinds, List(items))
    ensures i < |items| && !LeavesIn(kinds, items[i])
  {
    if !LeavesIn(kinds, items[0]) then 0
    else
      assert !LeavesIn(kinds, List(items[1..])) by {
        var j :| 0 <= j < |items| && !LeavesIn(kinds, items[j]);
        assert items[1..][j - 1] == items[j];
      }
      1 + FirstBadItem(kinds, items[1..])
  }

  /** What a dump call hands to the JSON library: the document and the
      indent (`None` writes everything on one line). */
  datatype Dumped = Dumped(document: Value, indent: Option<int>)

  /** One save of a JSONAutoDict: the path written to and what the dump
      call was given, or the error it raised. */
  datatype SaveRecord = SaveRecord(path: string, written: Result<Dumped>)

  /** DefaultJSONDriver.dumps (and dump, which writes the same text to a
      file): the indent is passed through unchanged. */
  function Dumps(doc: Value, indent: Option<int>): (r: Result<Dumped>)
    ensures r.Ok? <==> StandardLeaves(doc)
    ensures r.Ok? ==> r.value == Dumped(Rendered(doc), indent)
    ensures r.Err? ==> r.error == TypeError
  {
    StandardRules();
    EncodeRenders({}, StandardTable, StandardKinds, doc);
    match Encode({}, StandardTable, doc)
    case Ok(d) => Ok(Dumped(d, indent))
    case Err(e) => Err(e)
  }

  /** A rendered value has no AutoDict left in it. */
  lemma {:induction false} RenderedIsPlain(v: Value)
    ensures Plain(Rendered(v)) == Rendered(v)
  {
    match v
    case Dict(_, es) =>
      forall i | 0 <= i < |es| ensures Plain(Rendered(es[i].1)) == Rendered(es[i].1) { RenderedIsPlain(es[i].1); }
      assert Plain(Rendered(v)).entries == Rendered(v).entries;
    case List(items) =>
      forall i | 0 <= i < |items| ensures Plain(Rendered(items[i])) == Rendered(items[i]) { RenderedIsPlain(items[i]); }
      assert Plain(Rendered(v)).items == Rendered(v).items;
    case _ =>
  }

  /** Dumping a value and loading the document back gives a value whose
      dicts are all AutoDicts and which compares equal to the rendered
      value: dates, times and UUIDs come back as their text. */
  lemma DumpThenLoad(v: Value, indent: Option<int>)
    requires StandardLeaves(v)
    ensures Dumps(v, indent).Ok?
    ensures var back := Load(Dumps(v, indent).value.document);
      Upgrade.AllAuto(back) && Plain(back) == Rendered(v)
  {
    RenderedIsPlain(v);
  }
}
