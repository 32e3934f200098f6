/**
 * Window-server records: parsing one registry record into a `WindowInfo`,
 * filtering a registry snapshot, and looking a window up by id.
 */
module Windows {
  import opened Wrappers
  import opened Accessibility

  /** A value in a registry record, tagged with its Swift type. */
  datatype Value =
    | Float32(f: real)
    | Integer(i: int)
    | Boolean(b: bool)
    | Text(s: string)
    | Dictionary(entries: map<string, Value>)

  type Record = map<string, Value>

  const AlphaKey: string := "kCGWindowAlpha"
  const IsOnscreenKey: string := "kCGWindowIsOnscreen"
  const LayerKey: string := "kCGWindowLayer"
  const NumberKey: string := "kCGWindowNumber"
  const OwnerNameKey: string := "kCGWindowOwnerName"
  const OwnerPIDKey: string := "kCGWindowOwnerPID"
  const BoundsKey: string := "kCGWindowBounds"
  const HeightKey: string := "Height"
  const WidthKey: string := "Width"
  const XKey: string := "X"
  const YKey: string := "Y"

  /** The top-level keys a record needs, and the keys its bounds need. */
  const RecordKeys: set<string> :=
    {AlphaKey, IsOnscreenKey, LayerKey, NumberKey, OwnerNameKey, OwnerPIDKey, BoundsKey}
  const BoundsKeys: set<string> := {HeightKey, WidthKey, XKey, YKey}

  /** Swift's `Int` is 64 bits wide and `pid_t` 32 bits. */
  predicate IsInt64(i: int) { -0x8000_0000_0000_0000 <= i < 0x8000_0000_0000_0000 }
  predicate IsInt32(i: int) { -0x8000_0000 <= i < 0x8000_0000 }

  datatype WindowInfo = WindowInfo(
    alpha: real,
    isOnScreen: bool,
    layer: int,
    id: int,
    ownerName: string,
    ownerPID: Pid,
    height: int,
    width: int,
    x: int,
    y: int)

  function Get(d: Record, key: string): Option<Value>
  {
    if key in d then Some(d[key]) else None
  }

  // The `as?` casts, one per Swift type the record is read as.

  function AsFloat32(v: Option<Value>): Option<real>
  {
    if v.Some? && v.value.Float32? then Some(v.value.f) else None
  }

  function AsBool(v: Option<Value>): Option<bool>
  {
    if v.Some? && v.value.Boolean? then Some(v.value.b) else None
  }

  function AsInt(v: Option<Value>): Option<int>
  {
    if v.Some? && v.value.Integer? && IsInt64(v.value.i) then Some(v.value.i) else None
  }

  function AsPid(v: Option<Value>): Option<Pid>
  {
    if v.Some? && v.value.Integer? && IsInt32(v.value.i) then Some(v.value.i) else None
  }

  function AsString(v: Option<Value>): Option<string>
  {
    if v.Some? && v.value.Text? then Some(v.value.s) else None
  }

  function AsDictionary(v: Option<Value>): Option<Record>
  {
    if v.Some? && v.value.Dictionary? then Some(v.value.entries) else None
  }

  /** `WindowInfo.init?(properties:)`: all eleven fields, or nothing. */
  function Parse(d: Record): Option<WindowInfo>
  {
    var alpha :- AsFloat32(Get(d, AlphaKey));
    var isOnScreen :- AsBool(Get(d, IsOnscreenKey));
    var layer :- AsInt(Get(d, LayerKey));
    var id :- AsInt(Get(d, NumberKey));
    var ownerName :- AsString(Get(d, OwnerNameKey));
    var ownerPID :- AsPid(Get(d, OwnerPIDKey));
    var bounds :- AsDictionary(Get(d, BoundsKey));
    var height :- AsInt(Get(bounds, HeightKey));
    var width :- AsInt(Get(bounds, WidthKey));
    var x :- AsInt(Get(bounds, XKey));
    var y :- AsInt(Get(bounds, YKey));
    Some(WindowInfo(alpha, isOnScreen, layer, id, ownerName, ownerPID, height, width, x, y))
  }

  /** The value at `key` has the type the parser reads it as. */
  predicate Typed(key: string, v: Value)
  {
    if key == AlphaKey then v.Float32?
    else if key == IsOnscreenKey then v.Boolean?
    else if key == LayerKey || key == NumberKey then v.Integer? && IsInt64(v.i)
    else if key == OwnerNameKey then v.Text?
    else if key == OwnerPIDKey then v.Integer? && IsInt32(v.i)
    else if key == BoundsKey then v.Dictionary?
    else true
  }

  predicate TypedBound(v: Value)
  {
    v.Integer? && IsInt64(v.i)
  }

  /** Every required field is present with its type, at both levels. */
  predicate WellFormed(d: Record)
  {
    && (forall key :: key in RecordKeys ==> key in d && Typed(key, d[key]))
    && (forall key :: key in BoundsKeys ==> key in d[BoundsKey].entries && TypedBound(d[BoundsKey].entries[key]))
  }

  /**
   * A record parses exactly when it is well formed, and then every field of
   * the result is the record's value, unchanged.
   */
  lemma ParseIff(d: Record)
    ensures Parse(d).Some? <==> WellFormed(d)
    ensures Parse(d).Some? ==>
      var w := Parse(d).value;
      var bounds := d[BoundsKey].entries;
      && d[AlphaKey] == Float32(w.alpha)
      && d[IsOnscreenKey] == Boolean(w.isOnScreen)
      && d[LayerKey] == Integer(w.layer)
      && d[NumberKey] == Integer(w.id)
      && d[OwnerNameKey] == Text(w.ownerName)
      && d[OwnerPIDKey] == Integer(w.ownerPID)
      && bounds[HeightKey] == Integer(w.height)
      && bounds[WidthKey] == Integer(w.width)
      && bounds[XKey] == Integer(w.x)
      && bounds[YKey] == Integer(w.y)
  {
    if WellFormed(d) {
      assert forall key :: key in RecordKeys ==> key in d && Typed(key, d[key]);
      assert AlphaKey in RecordKeys && IsOnscreenKey in RecordKeys && LayerKey in RecordKeys;
      assert NumberKey in RecordKeys && OwnerNameKey in RecordKeys && OwnerPIDKey in RecordKeys;
      assert BoundsKey in RecordKeys;
      assert HeightKey in BoundsKeys && WidthKey in BoundsKeys && XKey in BoundsKeys && YKey in BoundsKeys;
    }
  }

  /** The numeric fields fit the widths the registry reports them in. */
  predicate Representable(w: WindowInfo)
  {
    IsInt64(w.layer) && IsInt64(w.id) && IsInt32(w.ownerPID) &&
    IsInt64(w.height) && IsInt64(w.width) && IsInt64(w.x) && IsInt64(w.y)
  }

  /** The registry record that describes `w`. */
  function ToRecord(w: WindowInfo): Record
  {
    map[
      AlphaKey := Float32(w.alpha),
      IsOnscreenKey := Boolean(w.isOnScreen),
      LayerKey := Integer(w.layer),
      NumberKey := Integer(w.id),
      OwnerNameKey := Text(w.ownerName),
      OwnerPIDKey := Integer(w.ownerPID),
      BoundsKey := Dictionary(map[
        HeightKey := Integer(w.height),
        WidthKey := Integer(w.width),
        XKey := Integer(w.x),
        YKey := Integer(w.y)])]
  }

  /** Parsing the record of a window gives the window back. */
  lemma ParseToRecord(w: WindowInfo)
    requires Representable(w)
    ensures Parse(ToRecord(w)) == Some(w)
  {
  }

  /** Any one required field missing rejects the record. */
  lemma MissingFieldRejected(d: Record, key: string)
    requires key in RecordKeys
    ensures Parse(d - {key}) == None
  {
    ParseIff(d - {key});
  }

  /** Any one required bounds field missing rejects the record. */
  lemma MissingBoundRejected(d: Record, bounds: Record, key: string)
    requires key in BoundsKeys
    ensures Parse(d[BoundsKey := Dictionary(bounds - {key})]) == None
  {
    ParseIff(d[BoundsKey := Dictionary(bounds - {key})]);
  }

  /** Any one required field of the wrong type rejects the record. */
  lemma MistypedFieldRejected(d: Record, key: string, v: Value)
    requires key in RecordKeys && !Typed(key, v)
    ensures Parse(d[key := v]) == None
  {
    ParseIff(d[key := v]);
  }

  /** Any one bounds field of the wrong type rejects the record. */
  lemma MistypedBoundRejected(d: Record, bounds: Record, key: string, v: Value)
    requires key in BoundsKeys && !TypedBound(v)
    ensures Parse(d[BoundsKey := Dictionary(bounds[key := v])]) == None
  {
    ParseIff(d[BoundsKey := Dictionary(bounds[key := v])]);
  }

  /** Keys the parser does not read change nothing. */
  lemma ExtraKeyIgnored(d: Record, key: string, v: Value)
    requires key !in RecordKeys
    ensures Parse(d[key := v]) == Parse(d)
  {
    var d' := d[key := v];
    assert forall k :: k in RecordKeys ==> Get(d', k) == Get(d, k);
  }

  /** One registry entry: it must be a dictionary, and then it must parse. */
  function ParseEntry(v: Value): Option<WindowInfo>
  {
    match v
    case Dictionary(d) => Parse(d)
    case _ => None
  }

  /** `compactMap` of `ParseEntry`: the entries that parse, in registry order. */
  function CompactMap(entries: seq<Value>): seq<WindowInfo>
  {
    if entries == [] then []
    else
      match ParseEntry(entries[0])
      case Some(w) => [w] + CompactMap(entries[1..])
      case None => CompactMap(entries[1..])
  }

  /** Every window kept comes from an entry that parses to it. */
  lemma {:induction false} CompactMapSources(entries: seq<Value>, w: WindowInfo)
    requires w in CompactMap(entries)
    ensures exists i :: 0 <= i < |entries| && ParseEntry(entries[i]) == Some(w)
    decreases |entries|
  {
    if ParseEntry(entries[0]) != Some(w) {
      CompactMapSources(entries[1..], w);
      var i :| 0 <= i < |entries| - 1 && ParseEntry(entries[1..][i]) == Some(w);
      assert entries[i + 1] == entries[1..][i];
    }
  }

  /** A registry list never yields more windows than it has entries. */
  lemma {:induction false} CompactMapLength(entries: seq<Value>)
    ensures |CompactMap(entries)| <= |entries|
    decreases |entries|
  {
    if entries != [] {
      CompactMapLength(entries[1..]);
    }
  }

  lemma {:induction false} CompactMapAppend(a: seq<Value>, b: seq<Value>)
    ensures CompactMap(a + b) == CompactMap(a) + CompactMap(b)
    decreases |a|
  {
    if a == [] {
      assert a + b == b;
    } else {
      assert (a + b)[0] == a[0];
      assert (a + b)[1..] == a[1..] + b;
      CompactMapAppend(a[1..], b);
    }
  }

  /** Every entry that parses is kept. */
  lemma {:induction false} CompactMapKeeps(entries: seq<Value>, i: nat)
    requires i < |entries| && ParseEntry(entries[i]).Some?
    ensures ParseEntry(entries[i]).value in CompactMap(entries)
    decreases i
  {
    if i > 0 {
      CompactMapKeeps(entries[1..], i - 1);
    }
  }

  /** An entry that does not parse is dropped without disturbing the others. */
  lemma CompactMapDrops(before: seq<Value>, v: Value, after: seq<Value>)
    requires ParseEntry(v).None?
    ensures CompactMap(before + [v] + after) == CompactMap(before + after)
  {
    CompactMapAppend(before + [v], after);
    CompactMapAppend(before, [v]);
    CompactMapAppend(before, after);
    CompactMapSingleton(v);
  }

  lemma CompactMapSingleton(v: Value)
    ensures CompactMap([v]) == if ParseEntry(v).Some? then [ParseEntry(v).value] else []
  {
    assert [v][0] == v && [v][1..] == [];
  }

  /**
   * `WindowInfo.all`: nothing when the registry returns no list, otherwise
   * the entries that parse.
   */
  function AllWindows(registry: Option<seq<Value>>): (r: seq<WindowInfo>)
    ensures registry.None? ==> r == []
    ensures registry.Some? ==> |r| <= |registry.value|
  {
    match registry
    case None => []
    case Some(entries) =>
      CompactMapLength(entries);
      CompactMap(entries)
  }

  /** `first(where: { $0.id == id })`. */
  function FindById(ws: seq<WindowInfo>, id: int): (r: Option<WindowInfo>)
    ensures r.None? <==> forall w :: w in ws ==> w.id != id
    ensures r.Some? ==> exists k :: 0 <= k < |ws| && ws[k] == r.value && r.value.id == id &&
                                   forall j :: 0 <= j < k ==> ws[j].id != id
  {
    if ws == [] then None
    else if ws[0].id == id then Some(ws[0])
    else
      var r := FindById(ws[1..], id);
      assert forall j :: 0 <= j < |ws| - 1 ==> ws[1..][j] == ws[j + 1];
      assert ws == [ws[0]] + ws[1..];
      r
  }

  /** `WindowInfo.init?(id:)`: the first parsed record with that id. */
  function Lookup(registry: Option<seq<Value>>, id: WindowId): (r: Option<WindowInfo>)
    ensures r.None? <==> forall w :: w in AllWindows(registry) ==> w.id != id
    ensures r.Some? ==> r.value.id == id && r.value in AllWindows(registry)
  {
    FindById(AllWindows(registry), id)
  }

  /**
   * Lookup finds a record exactly when some registry entry parses to a window
   * with that id, and what it finds is such a window.
   */
  lemma LookupIff(registry: Option<seq<Value>>, id: WindowId)
    ensures Lookup(registry, id).Some? <==>
      registry.Some? && exists i :: 0 <= i < |registry.value| && ParseEntry(registry.value[i]).Some? &&
                                   ParseEntry(registry.value[i]).value.id == id
    ensures Lookup(registry, id).Some? ==>
      Lookup(registry, id).value.id == id && Lookup(registry, id).value in AllWindows(registry)
  {
    if registry.Some? {
      var entries := registry.value;
      if i :| 0 <= i < |entries| && ParseEntry(entries[i]).Some? && ParseEntry(entries[i]).value.id == id {
        CompactMapKeeps(entries, i);
      }
      if Lookup(registry, id).Some? {
        CompactMapSources(entries, Lookup(registry, id).value);
      }
    }
  }
}
