/** Value conversion: `_coerce` on the way in, `_logical_json_value` on the way out. */
module Values {
  import opened Common
  import opened Rows
  import opened Timestamps
  import Base64

  /** Python values that cross the driver. `PyOther` stands for the results of library
      conversions (floats, decimals, dates, UUIDs, JSON text, points). */
  datatype Py =
    | PyNone
    | PyBool(flag: bool)
    | PyInt(number: int)
    | PyStr(text: string)
    | PyBytes(bytes: seq<Byte>)
    | PyList(items: seq<Py>)
    | PyOther(kind: string, json: Json)

  function KindOf(logicalType: Json): Result<string> {
    match logicalType
    case JStr(kind) => Ok(kind)
    case JObj(m) => if "kind" in m && m["kind"].JStr? then Ok(m["kind"].text) else Ok("")
    case _ => Err(BadType)
  }

  /** Bits of the signed integer kinds. */
  function IntegerBits(kind: string): Option<nat> {
    match kind
    case "int8" => Some(8)
    case "int16" => Some(16)
    case "int32" => Some(32)
    case "int64" => Some(64)
    case "duration" => Some(64)
    case _ => None
  }

  predicate FitsSigned(n: int, bits: nat) {
    if bits == 8 then -0x80 <= n <= 0x7f
    else if bits == 16 then -0x8000 <= n <= 0x7fff
    else if bits == 32 then -0x8000_0000 <= n <= 0x7fff_ffff
    else Storable(n)
  }

  const LIBRARY_KINDS := {"float64", "date", "uuid", "decimal", "json", "recordRef", "objectRef", "wgs84Point"}

  /** `_coerce` of one non-null value of a known kind. */
  function CoerceKind(v: Json, kind: string): Result<Py> {
    if kind == "boolean" then (if v.JBool? then Ok(PyBool(v.flag)) else Err(BadType))
    else if IntegerBits(kind).Some? then
      if !v.JInt? then Err(BadType)
      else if FitsSigned(v.number, IntegerBits(kind).value) then Ok(PyInt(v.number)) else Err(OutOfRange)
    else if kind == "string" || kind == "enum" then (if v.JStr? then Ok(PyStr(v.text)) else Err(BadType))
    else if kind == "utcTimestamp" then
      if !v.JStr? then Err(BadType) else
      var ticks :- TimestampNanoseconds(v.text);
      Ok(PyInt(ticks))
    else if kind == "bytes" then
      if !v.JStr? then Err(BadType) else
      (match Base64.Decode(v.text) case Some(bytes) => Ok(PyBytes(bytes)) case None => Err(BadSyntax))
    else if kind in LIBRARY_KINDS then Ok(PyOther(kind, v))
    else Err(Unsupported)
  }

  function CoerceOne(v: Json, logicalType: Json): Result<Py> {
    if v.JNull? then Ok(PyNone) else
    var kind :- KindOf(logicalType);
    CoerceKind(v, kind)
  }

  function CoerceAll(items: seq<Json>, logicalType: Json): Result<seq<Py>> {
    if items == [] then Ok([]) else
    var first :- CoerceOne(items[0], logicalType);
    var rest :- CoerceAll(items[1..], logicalType);
    Ok([first] + rest)
  }

  /** `_coerce`. */
  function Coerce(v: Json, logicalType: Json, many: bool): Result<Py> {
    if many then
      if !v.JArr? then Err(BadType) else
      var items :- CoerceAll(v.items, logicalType);
      Ok(PyList(items))
    else CoerceOne(v, logicalType)
  }

  // ---- Results --------------------------------------------------------------

  /** Integers of the engine have at most 64 bits. */
  predicate EngineInts(p: Py) {
    match p
    case PyInt(n) => Storable(n)
    case PyList(items) => forall i :: 0 <= i < |items| ==> EngineInts(items[i])
    case _ => true
  }

  /** `_json_value`. */
  function JsonValue(p: Py): Json {
    match p
    case PyNone => JNull
    case PyBool(b) => JBool(b)
    case PyInt(n) => JInt(n)
    case PyStr(s) => JStr(s)
    case PyBytes(bytes) => JStr(Base64.Encode(bytes))
    case PyList(items) => JArr(seq(|items|, i requires 0 <= i < |items| => JsonValue(items[i])))
    case PyOther(_, json) => json
  }

  /** `_logical_json_value` for a column that is, or is not, in `timestampColumns`; the
      decoding of JSON columns is part of the library conversions. */
  function LogicalJson(p: Py, timestamp: bool): Json
    requires EngineInts(p)
  {
    if timestamp && p.PyInt? then JStr(TimestampText(p.number, false))
    else if timestamp && p.PyList? then
      JArr(seq(|p.items|, i requires 0 <= i < |p.items| => LogicalJson(p.items[i], timestamp)))
    else JsonValue(p)
  }

  /** The same for a column that may also be in `jsonColumns`; `decode` is the JSON decoder. */
  function ColumnJson(p: Py, timestamp: bool, json: bool, decode: string -> Json): Json
    requires EngineInts(p)
  {
    if timestamp && p.PyInt? then JStr(TimestampText(p.number, false))
    else if json && p.PyStr? then decode(p.text)
    else if (timestamp || json) && p.PyList? then
      JArr(seq(|p.items|, i requires 0 <= i < |p.items| => ColumnJson(p.items[i], timestamp, json, decode)))
    else JsonValue(p)
  }

  lemma {:induction false} PlainColumnJson(p: Py, timestamp: bool, decode: string -> Json)
    requires EngineInts(p)
    ensures ColumnJson(p, timestamp, false, decode) == LogicalJson(p, timestamp)
  {
    if timestamp && p.PyList? {
      var a, b := ColumnJson(p, timestamp, false, decode), LogicalJson(p, timestamp);
      forall i | 0 <= i < |p.items| ensures a.items[i] == b.items[i] {
        PlainColumnJson(p.items[i], timestamp, decode);
      }
      assert a.items == b.items;
    }
  }

  /** A document with an integer anywhere inside. */
  predicate HasInteger(j: Json) {
    match j
    case JInt(_) => true
    case JArr(items) => exists i :: 0 <= i < |items| && HasInteger(items[i])
    case _ => false
  }

  /** Driver values of a timestamp column: ticks and nulls, arbitrarily nested in arrays. */
  predicate TickShaped(p: Py) {
    match p
    case PyNone => true
    case PyInt(n) => Storable(n)
    case PyList(items) => forall i :: 0 <= i < |items| ==> TickShaped(items[i])
    case _ => false
  }

  lemma {:induction false} TickShapedInts(p: Py)
    requires TickShaped(p)
    ensures EngineInts(p)
  {
    if p.PyList? {
      forall i | 0 <= i < |p.items| ensures EngineInts(p.items[i]) { TickShapedInts(p.items[i]); }
    }
  }

  /** No tick integer reaches a result of a timestamp column, however deeply nested. */
  lemma {:induction false} NoTickLeaks(p: Py)
    requires TickShaped(p) && EngineInts(p)
    ensures !HasInteger(LogicalJson(p, true))
  {
    if p.PyList? {
      var j := LogicalJson(p, true);
      forall i | 0 <= i < |j.items| ensures !HasInteger(j.items[i]) {
        NoTickLeaks(p.items[i]);
      }
    }
  }

  /** A JSON column is shown decoded: text by the decoder, arrays item by item, nulls as they are. */
  lemma {:induction false} JsonColumn(p: Py, decode: string -> Json)
    requires EngineInts(p)
    ensures p.PyNone? ==> ColumnJson(p, false, true, decode) == JNull
    ensures p.PyStr? ==> ColumnJson(p, false, true, decode) == decode(p.text)
    ensures p.PyList? ==>
      var j := ColumnJson(p, false, true, decode);
      && j.JArr? && |j.items| == |p.items|
      && forall i :: 0 <= i < |p.items| ==> j.items[i] == ColumnJson(p.items[i], false, true, decode)
  {}

  // ---- Acceptance -----------------------------------------------------------

  /** The integers of the signed kinds. */
  predicate InRange(kind: string, n: int) {
    || (kind == "int8" && -128 <= n <= 127)
    || (kind == "int16" && -32768 <= n <= 32767)
    || (kind == "int32" && -2147483648 <= n <= 2147483647)
    || (kind in ["int64", "duration"] && -9223372036854775808 <= n <= 9223372036854775807)
  }

  /** What each kind converts a value to. */
  predicate Converts(kind: string, v: Json, p: Py) {
    match v
    case JBool(flag) => kind == "boolean" && p == PyBool(flag)
    case JInt(n) => InRange(kind, n) && p == PyInt(n)
    case JStr(text) =>
      || (kind in ["string", "enum"] && p == PyStr(text))
      || (kind == "utcTimestamp" && p.PyInt? && TimestampNanoseconds(text) == Ok(p.number))
      || (kind == "bytes" && p.PyBytes? && Base64.Decode(text) == Some(p.bytes))
    case _ => false
  }

  /** Which values each kind accepts, and what it converts them to. */
  lemma {:induction false} KindConverts(v: Json, kind: string, p: Py)
    requires kind !in ["float64", "date", "uuid", "decimal", "json", "recordRef", "objectRef", "wgs84Point"]
    ensures CoerceKind(v, kind) == Ok(p) <==> Converts(kind, v, p)
  {
    hide TimestampNanoseconds, Base64.Decode;
  }

  /** A logical type is a kind by name or an object that names it; null passes under every type. */
  lemma {:induction false} TypeForms(v: Json, kind: string, more: map<string, Json>)
    ensures CoerceOne(v, JStr(kind)) == if v.JNull? then Ok(PyNone) else CoerceKind(v, kind)
    ensures CoerceOne(v, JObj(more["kind" := JStr(kind)])) == CoerceOne(v, JStr(kind))
  {
    hide CoerceKind;
  }

  lemma {:induction false} AllConvert(items: seq<Json>, logicalType: Json)
    ensures CoerceAll(items, logicalType).Ok? <==>
            forall i :: 0 <= i < |items| ==> CoerceOne(items[i], logicalType).Ok?
    ensures CoerceAll(items, logicalType).Ok? ==>
              var ps := CoerceAll(items, logicalType).value;
              |ps| == |items| && forall i :: 0 <= i < |items| ==> CoerceOne(items[i], logicalType) == Ok(ps[i])
  {
    hide CoerceOne;
    if items != [] {
      AllConvert(items[1..], logicalType);
      assert forall i :: 0 < i < |items| ==> items[i] == items[1..][i - 1];
      if CoerceAll(items[1..], logicalType).Ok? && CoerceOne(items[0], logicalType).Ok? {
        var ps := CoerceAll(items[1..], logicalType).value;
        assert CoerceAll(items, logicalType) == Ok([CoerceOne(items[0], logicalType).value] + ps);
      }
    }
  }

  /** A field of many values takes arrays, each item under the type, in order. */
  lemma {:induction false} ManyConvert(v: Json, logicalType: Json)
    ensures Coerce(v, logicalType, true).Ok? <==>
            v.JArr? && forall i :: 0 <= i < |v.items| ==> CoerceOne(v.items[i], logicalType).Ok?
    ensures Coerce(v, logicalType, true).Ok? ==>
              exists ps :: && Coerce(v, logicalType, true) == Ok(PyList(ps)) && |ps| == |v.items|
                           && forall i :: 0 <= i < |ps| ==> CoerceOne(v.items[i], logicalType) == Ok(ps[i])
  {
    hide CoerceOne, CoerceAll;
    if v.JArr? {
      AllConvert(v.items, logicalType);
    }
  }

  // ---- Round trip -----------------------------------------------------------

  /** Kinds that the adapter converts itself. */
  predicate OwnKind(kind: string) {
    kind in {"boolean", "string", "enum", "utcTimestamp", "bytes"} || IntegerBits(kind).Some?
  }

  predicate IsTime(kind: string) { kind == "utcTimestamp" }

  /** The spelling that results use, for a value that is accepted under `kind`. */
  ghost predicate Canonical(v: Json, kind: string) {
    && (kind == "utcTimestamp" && v.JStr? ==> exists t :: Storable(t) && v.text == TimestampText(t, false))
    && (kind == "bytes" && v.JStr? ==> exists b :: v.text == Base64.Encode(b))
  }

  lemma {:induction false} CoercedInts(v: Json, kind: string)
    requires CoerceKind(v, kind).Ok?
    ensures EngineInts(CoerceKind(v, kind).value)
  {
    hide TimestampNanoseconds, Base64.Decode;
  }

  lemma {:induction false} TimeRoundTrip(text: string)
    requires TimestampNanoseconds(text).Ok?
    ensures var t := TimestampNanoseconds(text).value;
            && Storable(t)
            && TimestampNanoseconds(TimestampText(t, false)) == Ok(t)
            && (text == TimestampText(t, false) <==> exists u :: Storable(u) && text == TimestampText(u, false))
  {
    hide TimestampText;
    PrintOfParseIdempotent(text);
  }

  /** Converting a value, reading it back and converting again is stable, and reading back
      reproduces the value exactly when it was spelled canonically. */
  lemma {:induction false} KindRoundTrip(v: Json, kind: string)
    requires OwnKind(kind) && CoerceKind(v, kind).Ok?
    ensures var p := CoerceKind(v, kind).value;
            && EngineInts(p)
            && CoerceKind(LogicalJson(p, IsTime(kind)), kind) == Ok(p)
            && (LogicalJson(p, IsTime(kind)) == v <==> Canonical(v, kind))
            && !LogicalJson(p, IsTime(kind)).JNull?
  {
    hide TimestampNanoseconds, TimestampText, Base64.Decode, Base64.Encode;
    CoercedInts(v, kind);
    var p := CoerceKind(v, kind).value;
    if kind == "utcTimestamp" {
      TimeRoundTrip(v.text);
    } else if kind == "bytes" {
      Base64.DecodeEncode(p.bytes);
      forall b | v.text == Base64.Encode(b) ensures b == p.bytes { Base64.DecodeEncode(b); }
    }
  }

  ghost predicate CanonicalItems(items: seq<Json>, kind: string) {
    forall i :: 0 <= i < |items| ==> items[i].JNull? || Canonical(items[i], kind)
  }

  lemma {:induction false} OneRoundTrip(v: Json, logicalType: Json)
    requires KindOf(logicalType).Ok? && OwnKind(KindOf(logicalType).value) && CoerceOne(v, logicalType).Ok?
    ensures var p, kind := CoerceOne(v, logicalType).value, KindOf(logicalType).value;
            && EngineInts(p)
            && CoerceOne(LogicalJson(p, IsTime(kind)), logicalType) == Ok(p)
            && (LogicalJson(p, IsTime(kind)) == v <==> v.JNull? || Canonical(v, kind))
  {
    hide CoerceKind, OwnKind, Canonical;
    if !v.JNull? {
      KindRoundTrip(v, KindOf(logicalType).value);
    }
  }

  function LogicalItems(items: seq<Py>, timestamp: bool): (r: seq<Json>)
    requires EngineInts(PyList(items))
    ensures |r| == |items|
  {
    seq(|items|, i requires 0 <= i < |items| => LogicalJson(items[i], timestamp))
  }

  lemma {:induction false} LogicalList(items: seq<Py>, timestamp: bool)
    requires EngineInts(PyList(items))
    ensures LogicalJson(PyList(items), timestamp) == JArr(LogicalItems(items, timestamp))
  {
    if !timestamp {
      forall i | 0 <= i < |items| ensures LogicalJson(items[i], false) == JsonValue(items[i]) {}
      assert JsonValue(PyList(items)).items == LogicalItems(items, timestamp);
    } else {
      assert LogicalJson(PyList(items), timestamp).items == LogicalItems(items, timestamp);
    }
  }

  lemma {:induction false} CanonicalSplit(vs: seq<Json>, kind: string)
    requires vs != []
    ensures CanonicalItems(vs, kind) <==> (vs[0].JNull? || Canonical(vs[0], kind)) && CanonicalItems(vs[1..], kind)
  {
    assert vs == [vs[0]] + vs[1..];
  }

  lemma {:induction false} AllRoundTrip(vs: seq<Json>, logicalType: Json)
    requires KindOf(logicalType).Ok? && OwnKind(KindOf(logicalType).value) && CoerceAll(vs, logicalType).Ok?
    ensures var ps, kind := CoerceAll(vs, logicalType).value, KindOf(logicalType).value;
            && EngineInts(PyList(ps))
            && CoerceAll(LogicalItems(ps, IsTime(kind)), logicalType) == Ok(ps)
            && (LogicalItems(ps, IsTime(kind)) == vs <==> CanonicalItems(vs, kind))
  {
    hide CoerceOne, OwnKind, Canonical, LogicalJson, KindOf;
    var kind := KindOf(logicalType).value;
    if vs != [] {
      OneRoundTrip(vs[0], logicalType);
      AllRoundTrip(vs[1..], logicalType);
      var ps := CoerceAll(vs, logicalType).value;
      assert ps[1..] == CoerceAll(vs[1..], logicalType).value;
      assert forall i :: 0 <= i < |ps| ==> EngineInts(ps[i]) by {
        forall i | 0 <= i < |ps| ensures EngineInts(ps[i]) {
          if i > 0 { assert ps[i] == ps[1..][i - 1]; }
        }
      }
      var js := LogicalItems(ps, IsTime(kind));
      assert js[1..] == LogicalItems(ps[1..], IsTime(kind));
      assert js == [js[0]] + js[1..] && vs == [vs[0]] + vs[1..];
      CanonicalSplit(vs, kind);
    }
  }

  /** The same for whole columns, scalar or array-valued, with nulls. */
  lemma {:induction false} ValueRoundTrip(v: Json, logicalType: Json, many: bool)
    requires KindOf(logicalType).Ok? && OwnKind(KindOf(logicalType).value) && Coerce(v, logicalType, many).Ok?
    ensures var p, kind := Coerce(v, logicalType, many).value, KindOf(logicalType).value;
            && EngineInts(p)
            && Coerce(LogicalJson(p, IsTime(kind)), logicalType, many) == Ok(p)
            && (LogicalJson(p, IsTime(kind)) == v <==>
                if many then CanonicalItems(v.items, kind) else v.JNull? || Canonical(v, kind))
  {
    hide CoerceOne, CoerceAll, OwnKind, Canonical, CanonicalItems, LogicalJson, LogicalItems;
    if many {
      AllRoundTrip(v.items, logicalType);
      LogicalList(CoerceAll(v.items, logicalType).value, IsTime(KindOf(logicalType).value));
    } else {
      OneRoundTrip(v, logicalType);
    }
  }

  // ---- Storage --------------------------------------------------------------

  /** What the engine stores for a driver value of a timestamp or other column. */
  function Stored(p: Py, time: bool): Value {
    match p
    case PyNone => Null
    case PyBool(b) => BoolV(b)
    case PyInt(n) => if time then TimeV(n) else IntV(n)
    case PyStr(s) => StrV(s)
    case PyBytes(bytes) => BytesV(bytes)
    case PyList(items) => ArrV(seq(|items|, i requires 0 <= i < |items| => Stored(items[i], time)))
    case PyOther(kind, json) => Opaque(kind, json)
  }

  /** What the driver returns for a stored value; integer ticks only where they are asked for. */
  function Loaded(v: Value, ticks: bool): Py {
    match v
    case Null => PyNone
    case BoolV(b) => PyBool(b)
    case IntV(n) => PyInt(n)
    case StrV(s) => PyStr(s)
    case TimeV(t) => if ticks then PyInt(t) else PyOther("datetime", JInt(t))
    case BytesV(bytes) => PyBytes(bytes)
    case ArrV(items) => PyList(seq(|items|, i requires 0 <= i < |items| => Loaded(items[i], ticks)))
    case Opaque(kind, json) => PyOther(kind, json)
  }

  /** Storing a driver value and reading it again gives it back. */
  lemma {:induction false} LoadedIsStored(p: Py, time: bool, ticks: bool)
    requires time ==> ticks
    ensures Loaded(Stored(p, time), ticks) == p
  {
    if p.PyList? {
      var q := Loaded(Stored(p, time), ticks);
      forall i | 0 <= i < |p.items| ensures q.items[i] == p.items[i] {
        LoadedIsStored(p.items[i], time, ticks);
      }
      assert q.items == p.items;
    }
  }

  lemma {:induction false} StoredInts(p: Py, time: bool, ticks: bool)
    requires EngineInts(p)
    ensures EngineInts(Loaded(Stored(p, time), ticks))
  {
    if p.PyList? {
      var q := Loaded(Stored(p, time), ticks);
      forall i | 0 <= i < |p.items| ensures EngineInts(q.items[i]) {
        StoredInts(p.items[i], time, ticks);
      }
    }
  }

  lemma {:induction false} CoercedOneInts(v: Json, logicalType: Json)
    requires CoerceOne(v, logicalType).Ok?
    ensures EngineInts(CoerceOne(v, logicalType).value)
  {
    hide CoerceKind;
    if !v.JNull? { CoercedInts(v, KindOf(logicalType).value); }
  }

  lemma {:induction false} CoercedAllInts(vs: seq<Json>, logicalType: Json)
    requires CoerceAll(vs, logicalType).Ok?
    ensures EngineInts(PyList(CoerceAll(vs, logicalType).value))
  {
    hide CoerceOne;
    if vs != [] {
      CoercedOneInts(vs[0], logicalType);
      CoercedAllInts(vs[1..], logicalType);
      var ps, tail := CoerceAll(vs, logicalType).value, PyList(CoerceAll(vs[1..], logicalType).value);
      forall i | 0 <= i < |ps| ensures EngineInts(ps[i]) {
        if i > 0 { assert ps[i] == tail.items[i - 1]; }
      }
    }
  }

  /** Converted values only hold integers that the engine can store. */
  lemma {:induction false} CoercedColumnInts(v: Json, logicalType: Json, many: bool)
    requires Coerce(v, logicalType, many).Ok?
    ensures EngineInts(Coerce(v, logicalType, many).value)
  {
    hide CoerceOne, CoerceAll;
    if many { CoercedAllInts(v.items, logicalType); } else { CoercedOneInts(v, logicalType); }
  }
}
