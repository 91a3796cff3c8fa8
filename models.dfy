/** src/ingestion/models.rs: the severity scale and the record type, over a model
    of the `serde_json::Value` it holds. */
module Models {
  import opened Wrappers

  // ---------------------------------------------------------------------------
  // Machine integers and floats
  // ---------------------------------------------------------------------------

  const I64_MIN: int := -0x8000_0000_0000_0000
  const I64_MAX: int := 0x7FFF_FFFF_FFFF_FFFF
  const U64_MAX: int := 0xFFFF_FFFF_FFFF_FFFF

  type I64 = n: int | I64_MIN <= n <= I64_MAX
  type U64 = n: int | 0 <= n <= U64_MAX

  /** The integers serde_json keeps exactly: a negative `i64` or any `u64`. */
  type JsonInt = n: int | I64_MIN <= n <= U64_MAX

  /** An `f64`, as its IEEE-754 bit pattern. Nothing here computes with it. */
  type F64 = bv64

  /** Neither an infinity nor a NaN: the exponent field is not all ones. */
  predicate IsFinite(f: F64) {
    (f >> 52) & 0x7FF != 0x7FF
  }

  type FiniteF64 = f: F64 | IsFinite(f)

  // ---------------------------------------------------------------------------
  // serde_json values
  // ---------------------------------------------------------------------------

  /** `serde_json::Number`: an integer (`PosInt`/`NegInt`) or a finite float. */
  datatype JsonNumber = Int(i: JsonInt) | Double(f: FiniteF64)
  {
    /** `Number::as_i64`. */
    function AsI64(): (r: Option<I64>)
      ensures r.Some? <==> Int? && i <= I64_MAX
      ensures r.Some? ==> r.value == i
    {
      if Int? && i <= I64_MAX then Some(i) else None
    }

    /** `Number::as_u64`. */
    function AsU64(): (r: Option<U64>)
      ensures r.Some? <==> Int? && 0 <= i
      ensures r.Some? ==> r.value == i
    {
      if Int? && 0 <= i then Some(i) else None
    }
  }

  /** `serde_json::Value`. Object entries are kept in iteration order. */
  datatype Value =
    | Null
    | Bool(b: bool)
    | Number(n: JsonNumber)
    | String(s: string)
    | Array(items: seq<Value>)
    | Object(entries: seq<(string, Value)>)
  {
    /** `Value::as_i64`. */
    function AsI64(): (r: Option<I64>)
      ensures forall k: I64 :: r == Some(k) <==> this == Number(Int(k))
    {
      if Number? then n.AsI64() else None
    }

    /** `Value::as_u64`. */
    function AsU64(): (r: Option<U64>)
      ensures forall k: U64 :: r == Some(k) <==> this == Number(Int(k))
    {
      if Number? then n.AsU64() else None
    }

    /** `Value::as_str`. */
    function AsStr(): (r: Option<string>)
      ensures forall t :: r == Some(t) <==> this == String(t)
    {
      if String? then Some(s) else None
    }
  }

  // ---------------------------------------------------------------------------
  // Records
  // ---------------------------------------------------------------------------

  /** No key occurs twice, as in a `HashMap`. */
  predicate DistinctKeys(fs: seq<(string, Value)>) {
    forall i, j :: 0 <= i < j < |fs| ==> fs[i].0 != fs[j].0
  }

  /** The entries of a `HashMap<String, Value>`, in its iteration order. */
  type Fields = fs: seq<(string, Value)> | DistinctKeys(fs)

  /** The value of the first entry with the given key. */
  function Lookup(fs: seq<(string, Value)>, key: string): (r: Option<Value>)
    ensures r.None? <==> forall i :: 0 <= i < |fs| ==> fs[i].0 != key
    ensures r.Some? ==> exists i :: 0 <= i < |fs| && fs[i] == (key, r.value)
  {
    if fs == [] then None
    else if fs[0].0 == key then Some(fs[0].1)
    else
      var r := Lookup(fs[1..], key);
      assert r.Some? ==> exists i :: 1 <= i < |fs| && fs[i] == (key, r.value);
      r
  }

  /** With distinct keys, a lookup finds the one entry that has the key. */
  lemma LookupFindsEntry(fs: Fields, i: nat)
    requires i < |fs|
    ensures Lookup(fs, fs[i].0) == Some(fs[i].1)
  {
    var r := Lookup(fs, fs[i].0);
    var j :| 0 <= j < |fs| && fs[j] == (fs[i].0, r.value);
    assert j == i;
  }

  /** `JsonLog`: one parsed log line. */
  datatype JsonLog = JsonLog(fields: Fields)
  {
    /** `get_field`: the value stored under `key`, if any. */
    function GetField(key: string): (r: Option<Value>)
      ensures forall v :: r == Some(v) <==> (key, v) in fields
      ensures r.None? <==> forall i :: 0 <= i < |fields| ==> fields[i].0 != key
    {
      var r := Lookup(fields, key);
      forall v | (key, v) in fields ensures r == Some(v) {
        var i :| 0 <= i < |fields| && fields[i] == (key, v);
        LookupFindsEntry(fields, i);
      }
      r
    }

    /** `get_timestamp_ms`: the `time` entry, when it is an `i64`. */
    function GetTimestampMs(): (r: Option<I64>)
      ensures forall t: I64 :: r == Some(t) <==> ("time", Value.Number(Int(t))) in fields
    {
      match GetField("time")
      case None => None
      case Some(v) => v.AsI64()
    }

    /** `get_message`: the `msg` entry, when it is a string. */
    function GetMessage(): (r: Option<string>)
      ensures forall s :: r == Some(s) <==> ("msg", String(s)) in fields
    {
      match GetField("msg")
      case None => None
      case Some(v) => v.AsStr()
    }

    /** `get_level_raw`: the `level` entry, when it is a `u64`. */
    function GetLevelRaw(): (r: Option<U64>)
      ensures forall n: U64 :: r == Some(n) <==> ("level", Value.Number(Int(n))) in fields
    {
      match GetField("level")
      case None => None
      case Some(v) => v.AsU64()
    }

    /** `get_level`: the severity whose code is stored under `level`. */
    function GetLevel(): (r: Option<LogLevel>)
      ensures forall l: LogLevel :: r == Some(l) <==> ("level", Value.Number(Int(l.AsU64()))) in fields
    {
      match GetLevelRaw()
      case None => None
      case Some(n) => LogLevel.FromU64(n)
    }
  }

  // ---------------------------------------------------------------------------
  // Severity scale
  // ---------------------------------------------------------------------------

  datatype LogLevel = Trace | Debug | Info | Warn | Error | Fatal
  {
    /** `as_u64`: the enum's discriminant. */
    function AsU64(): (r: U64)
      ensures 10 <= r <= 60 && r % 10 == 0
    {
      match this
      case Trace => 10
      case Debug => 20
      case Info => 30
      case Warn => 40
      case Error => 50
      case Fatal => 60
    }

    /** `from_u64`: the level with this code; any other code has none. */
    static function FromU64(level: U64): (r: Option<LogLevel>)
      ensures r.Some? <==> level in {10, 20, 30, 40, 50, 60}
      ensures r.Some? ==> r.value.AsU64() == level
    {
      match level
      case 10 => Some(Trace)
      case 20 => Some(Debug)
      case 30 => Some(Info)
      case 40 => Some(Warn)
      case 50 => Some(Error)
      case 60 => Some(Fatal)
      case _ => None
    }

    /** `as_str` (also the `Display` form). */
    function AsStr(): (r: string)
      ensures r != [] && IsUpperCase(r)
    {
      match this
      case Trace => "TRACE"
      case Debug => "DEBUG"
      case Info => "INFO"
      case Warn => "WARN"
      case Error => "ERROR"
      case Fatal => "FATAL"
    }

    /** The variant's position in the declaration, which the derived `Ord` compares. */
    function Rank(): nat {
      match this
      case Trace => 0
      case Debug => 1
      case Info => 2
      case Warn => 3
      case Error => 4
      case Fatal => 5
    }

    /** `self < other` under the derived `PartialOrd`. */
    predicate Below(other: LogLevel) {
      Rank() < other.Rank()
    }
  }

  /** Every level survives the trip to its code and back. */
  lemma LevelCodeRoundTrip(l: LogLevel)
    ensures LogLevel.FromU64(l.AsU64()) == Some(l)
  {
  }

  /** The derived order and the order of the codes agree. */
  lemma LevelOrderMatchesCodes(a: LogLevel, b: LogLevel)
    ensures a.Below(b) <==> a.AsU64() < b.AsU64()
  {
  }

  predicate IsUpperCase(s: string) {
    forall i :: 0 <= i < |s| ==> 'A' <= s[i] <= 'Z'
  }

  /** The six names are distinct upper-case words. */
  lemma LevelNamesDistinct(a: LogLevel, b: LogLevel)
    ensures IsUpperCase(a.AsStr()) && a.AsStr() != []
    ensures a != b ==> a.AsStr() != b.AsStr()
  {
  }

  /** The projections read raw keys only: a record whose message sits under
      `message` and not under `msg` has no message. */
  lemma MessageNeedsRawKey(log: JsonLog, s: string)
    requires ("message", String(s)) in log.fields
    requires forall i :: 0 <= i < |log.fields| ==> log.fields[i].0 != "msg"
    ensures log.GetMessage() == None
  {
    if log.GetMessage().Some? {
      assert ("msg", String(log.GetMessage().value)) in log.fields;
    }
  }
}
