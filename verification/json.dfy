/**
 * An already-parsed JSON tree and the accessors of the JSON library the
 * importers call (get, getString/getLong/getFloat with a default, asString,
 * asLong, ..., isNull, toString). Parsing JSON text is not part of this model.
 */
module JsonTree {
  import opened Wrappers
  import opened Primitives

  /** A number keeps its source text, as the library does; conversions parse it. */
  datatype Json =
    | JNull
    | JBool(b: bool)
    | JNumber(text: string)
    | JString(s: string)
    | JArray(items: seq<Json>)
    | JObject(members: seq<Member>)

  /** Object members in document order; a name may occur more than once. */
  datatype Member = Member(name: string, value: Json)

  function Names(members: seq<Member>): (r: seq<string>)
    ensures |r| == |members| && forall i | 0 <= i < |r| :: r[i] == members[i].name
  {
    seq(|members|, i requires 0 <= i < |members| => members[i].name)
  }

  /** JsonObject.get(name): the value of the LAST member with that name, or null. */
  function Get(members: seq<Member>, name: string): (r: Option<Json>)
    ensures r.None? <==> forall i | 0 <= i < |members| :: members[i].name != name
  {
    if |members| == 0 then None
    else if members[|members| - 1].name == name then Some(members[|members| - 1].value)
    else Get(members[..|members| - 1], name)
  }

  /** The value found is that of the last member with the name. */
  lemma {:induction false} GetLast(members: seq<Member>, name: string)
    requires Get(members, name).Some?
    ensures exists i | 0 <= i < |members| ::
              && members[i].name == name && members[i].value == Get(members, name).value
              && forall j | i < j < |members| :: members[j].name != name
  {
    var n := |members|;
    if members[n - 1].name == name {
      assert Get(members, name).value == members[n - 1].value;
    } else {
      var init := members[..n - 1];
      assert Get(members, name) == Get(init, name);
      GetLast(init, name);
      var i :| 0 <= i < |init| && init[i].name == name && init[i].value == Get(init, name).value
               && forall j | i < j < |init| :: init[j].name != name;
      assert members[i] == init[i];
      forall j | i < j < n
        ensures members[j].name != name
      {
        if j < n - 1 {
          assert members[j] == init[j];
        }
      }
    }
  }

  /** obj.get(name) when the caller goes on to dereference the result. */
  function Field(members: seq<Member>, name: string): (r: Result<Json>)
    ensures r.Ok? <==> Get(members, name).Some?
    ensures r.Ok? ==> r.value == Get(members, name).value
    ensures r.Err? ==> r.error == MissingMember(name)
  {
    match Get(members, name)
    case Some(v) => Ok(v)
    case None => Err(MissingMember(name))
  }

  predicate IsNull(v: Json) { v.JNull? }

  function AsObject(v: Json): Result<seq<Member>> {
    if v.JObject? then Ok(v.members) else Err(WrongJsonType("object"))
  }

  function AsArray(v: Json): Result<seq<Json>> {
    if v.JArray? then Ok(v.items) else Err(WrongJsonType("array"))
  }

  /**
   * The array elements from index i on, each read as an object and parsed:
   * one result per element, in array order (the file and row-group loops).
   */
  function ObjectsFrom<T>(items: seq<Json>, i: nat, parse: seq<Member> -> Result<T>): (r: Result<seq<T>>)
    requires i <= |items|
    ensures r.Ok? ==> |r.value| == |items| - i
                      && forall j | i <= j < |items| :: items[j].JObject? && parse(items[j].members) == Ok(r.value[j - i])
    decreases |items| - i
  {
    if i == |items| then Ok([])
    else
      match AsObject(items[i])
      case Err(e) => Err(e)
      case Ok(o) =>
        match parse(o)
        case Err(e) => Err(e)
        case Ok(x) =>
          match ObjectsFrom(items, i + 1, parse)
          case Err(e) => Err(e)
          case Ok(rest) =>
            assert forall k | 0 < k < |rest| + 1 :: ([x] + rest)[k] == rest[k - 1];
            Ok([x] + rest)
  }

  function AsString(v: Json): Result<string> {
    if v.JString? then Ok(v.s) else Err(WrongJsonType("string"))
  }

  function AsBoolean(v: Json): Result<bool> {
    if v.JBool? then Ok(v.b) else Err(WrongJsonType("boolean"))
  }

  /** asLong: Long.parseLong of the number's text. */
  function AsLong(v: Json): (r: Result<int>)
    ensures r.Ok? ==> IsInt64(r.value)
  {
    if !v.JNumber? then Err(WrongJsonType("number"))
    else match ParseDecimal(v.text, -TWO_63, TWO_63 - 1)
      case Some(n) => Ok(n)
      case None => Err(NumberFormat(v.text))
  }

  /** asInt: Integer.parseInt of the number's text. */
  function AsInt(v: Json): (r: Result<int>)
    ensures r.Ok? ==> IsInt32(r.value)
  {
    if !v.JNumber? then Err(WrongJsonType("number"))
    else match ParseDecimal(v.text, -TWO_31, TWO_31 - 1)
      case Some(n) => Ok(n)
      case None => Err(NumberFormat(v.text))
  }

  function AsFloat(v: Json): Result<Float32> {
    if v.JNumber? then Ok(Float32(v.text)) else Err(WrongJsonType("number"))
  }

  function AsDouble(v: Json): Result<Float64> {
    if v.JNumber? then Ok(Float64(v.text)) else Err(WrongJsonType("number"))
  }

  /** getString(name, default): the default only when the member is absent. */
  function GetString(members: seq<Member>, name: string, default: string): Result<string> {
    match Get(members, name)
    case Some(v) => AsString(v)
    case None => Ok(default)
  }

  function GetLong(members: seq<Member>, name: string, default: int): Result<int> {
    match Get(members, name)
    case Some(v) => AsLong(v)
    case None => Ok(default)
  }

  function GetFloat(members: seq<Member>, name: string, default: Float32): Result<Float32> {
    match Get(members, name)
    case Some(v) => AsFloat(v)
    case None => Ok(default)
  }

  // ---------------------------------------------------------------------
  // toString(): the library's compact JSON writer

  const HEX: string := "0123456789abcdef"

  function EscapeChar(c: char): string {
    if c == '"' then "\\\""
    else if c == '\\' then "\\\\"
    else if c == '\n' then "\\n"
    else if c == '\r' then "\\r"
    else if c == '\t' then "\\t"
    else if c == '\U{2028}' then "\\u2028"
    else if c == '\U{2029}' then "\\u2029"
    else if (c as int) < 0x20 then "\\u00" + [HEX[(c as int) / 16], HEX[(c as int) % 16]]
    else [c]
  }

  function Escape(s: string): string {
    if |s| == 0 then "" else Escape(s[..|s| - 1]) + EscapeChar(s[|s| - 1])
  }

  function Quote(s: string): (r: string)
    ensures |r| >= 2 && r[0] == '"' && r[|r| - 1] == '"'
  {
    "\"" + Escape(s) + "\""
  }

  function Text(v: Json): string
    decreases v, 2
  {
    match v
    case JNull => "null"
    case JBool(b) => if b then "true" else "false"
    case JNumber(t) => t
    case JString(s) => Quote(s)
    case JArray(items) => "[" + ItemsText(v, items) + "]"
    case JObject(members) => "{" + MembersText(v, members) + "}"
  }

  function ItemsText(ghost parent: Json, items: seq<Json>): string
    requires forall i | 0 <= i < |items| :: items[i] < parent
    decreases parent, 1, |items|
  {
    if |items| == 0 then ""
    else if |items| == 1 then Text(items[0])
    else Text(items[0]) + "," + ItemsText(parent, items[1..])
  }

  function MembersText(ghost parent: Json, members: seq<Member>): string
    requires forall i | 0 <= i < |members| :: members[i].value < parent
    decreases parent, 1, |members|
  {
    if |members| == 0 then ""
    else
      var head := Quote(members[0].name) + ":" + Text(members[0].value);
      if |members| == 1 then head else head + "," + MembersText(parent, members[1..])
  }
}
