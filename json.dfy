/**
 * The JSON values the client exchanges (serde_json's `Value`, integers only) with
 * the compact text `serde_json::to_string` writes and the `{:?}` text Rust's
 * `Debug` prints for them.
 */
module Json {
  import opened Wrappers
  import opened Text

  datatype Json =
    | Null
    | Bool(b: bool)
    | Num(n: int)
    | Str(s: string)
    | Arr(items: seq<Json>)
    | Obj(members: seq<Member>)

  /** One `"key": value` entry of an object, kept in the order it is written. */
  datatype Member = Member(key: string, value: Json)

  /**
   * `Value::get`: the value stored under `key` when `j` is an object, None for
   * a missing key or for a value that is not an object.
   */
  function Get(j: Json, key: string): Option<Json>
  {
    if j.Obj? then Lookup(j.members, key) else None
  }

  function Lookup(ms: seq<Member>, key: string): Option<Json>
  {
    if ms == [] then None
    else if ms[0].key == key then Some(ms[0].value)
    else Lookup(ms[1..], key)
  }

  /** The entry found is the first one carrying the key. */
  lemma {:induction false} LookupFirst(ms: seq<Member>, key: string, i: nat)
    requires i < |ms| && ms[i].key == key
    requires forall j :: 0 <= j < i ==> ms[j].key != key
    ensures Lookup(ms, key) == Some(ms[i].value)
  {
    if i > 0 {
      LookupFirst(ms[1..], key, i - 1);
    }
  }

  /** Only a key no entry carries is missing. */
  lemma {:induction false} LookupMissing(ms: seq<Member>, key: string)
    ensures Lookup(ms, key).None? <==> forall i :: 0 <= i < |ms| ==> ms[i].key != key
  {
    if ms != [] {
      LookupMissing(ms[1..], key);
      assert forall i :: 1 <= i < |ms| ==> ms[i] == ms[1..][i - 1];
    }
  }

  /** What is found is the value of an entry carrying the key. */
  lemma {:induction false} LookupFound(ms: seq<Member>, key: string)
    requires Lookup(ms, key).Some?
    ensures exists i :: 0 <= i < |ms| && ms[i] == Member(key, Lookup(ms, key).value)
  {
    if ms[0].key != key {
      LookupFound(ms[1..], key);
      var i :| 0 <= i < |ms[1..]| && ms[1..][i] == Member(key, Lookup(ms, key).value);
      assert ms[i + 1] == ms[1..][i];
    }
  }

  /** Does an object carry `key`? */
  predicate Has(j: Json, key: string) {
    Get(j, key).Some?
  }

  const HexDigits: string := "0123456789abcdef"

  /** How serde_json writes one character inside a string literal. */
  function EscapeChar(c: char): string
  {
    if c == '"' then "\\\""
    else if c == '\\' then "\\\\"
    else if c == '\n' then "\\n"
    else if c == '\r' then "\\r"
    else if c == '\t' then "\\t"
    else if c == '\U{0008}' then "\\b"
    else if c == '\U{000C}' then "\\f"
    else if (c as int) < 0x20 then "\\u00" + [HexDigits[(c as int) / 16], HexDigits[(c as int) % 16]]
    else [c]
  }

  function EscapeChars(s: string): string
  {
    if s == [] then "" else EscapeChar(s[0]) + EscapeChars(s[1..])
  }

  /** Characters serde_json writes unchanged inside a string literal. */
  predicate IsPlain(s: string) {
    forall i :: 0 <= i < |s| ==> (s[i] as int) >= 0x20 && s[i] != '"' && s[i] != '\\'
  }

  lemma {:induction false} PlainIsNotEscaped(s: string)
    requires IsPlain(s)
    ensures EscapeChars(s) == s
  {
    if s != [] {
      PlainIsNotEscaped(s[1..]);
    }
  }

  function Quote(s: string): string
  {
    "\"" + EscapeChars(s) + "\""
  }

  /** `serde_json::to_string`: compact JSON text, no whitespace between tokens. */
  function Serialize(j: Json): string
  {
    match j
    case Null => "null"
    case Bool(b) => if b then "true" else "false"
    case Num(n) => IntToDecimal(n)
    case Str(s) => Quote(s)
    case Arr(items) => "[" + SerializeItems(items) + "]"
    case Obj(members) => "{" + SerializeMembers(members) + "}"
  }

  function SerializeItems(items: seq<Json>): string
  {
    if items == [] then ""
    else if |items| == 1 then Serialize(items[0])
    else Serialize(items[0]) + "," + SerializeItems(items[1..])
  }

  function SerializeMembers(ms: seq<Member>): string
  {
    if ms == [] then ""
    else if |ms| == 1 then SerializeMember(ms[0])
    else SerializeMember(ms[0]) + "," + SerializeMembers(ms[1..])
  }

  function SerializeMember(m: Member): string
  {
    Quote(m.key) + ":" + Serialize(m.value)
  }

  /** The text of every object starts with `{` and ends with `}`. */
  lemma SerializedObjectIsBraced(ms: seq<Member>)
    ensures var t := Serialize(Obj(ms)); |t| >= 2 && t[0] == '{' && t[|t| - 1] == '}'
  {
  }

  /**
   * How Rust's `Debug` for `str` writes one character: quote, backslash and
   * the ASCII control codes are escaped; every other character, including the
   * non-ASCII ones Rust would also escape, is written as it is.
   */
  function DebugChar(c: char): string
  {
    var x := c as int;
    if c == '"' then "\\\""
    else if c == '\\' then "\\\\"
    else if c == '\n' then "\\n"
    else if c == '\r' then "\\r"
    else if c == '\t' then "\\t"
    else if c == '\0' then "\\0"
    else if x < 0x20 || x == 0x7F then
      "\\u{" + (if x < 16 then [HexDigits[x]] else [HexDigits[x / 16], HexDigits[x % 16]]) + "}"
    else [c]
  }

  function DebugChars(s: string): string
  {
    if s == [] then "" else DebugChar(s[0]) + DebugChars(s[1..])
  }

  function DebugStr(s: string): string
  {
    "\"" + DebugChars(s) + "\""
  }

  /** `{:?}` of a serde_json `Value`, e.g. `Array [String("Some"), String("data")]`. */
  function Debug(j: Json): string
  {
    match j
    case Null => "Null"
    case Bool(b) => if b then "Bool(true)" else "Bool(false)"
    case Num(n) => "Number(" + IntToDecimal(n) + ")"
    case Str(s) => "String(" + DebugStr(s) + ")"
    case Arr(items) => "Array [" + DebugItems(items) + "]"
    case Obj(members) => "Object {" + DebugMembers(members) + "}"
  }

  function DebugItems(items: seq<Json>): string
  {
    if items == [] then ""
    else if |items| == 1 then Debug(items[0])
    else Debug(items[0]) + ", " + DebugItems(items[1..])
  }

  function DebugMembers(ms: seq<Member>): string
  {
    if ms == [] then ""
    else if |ms| == 1 then DebugMember(ms[0])
    else DebugMember(ms[0]) + ", " + DebugMembers(ms[1..])
  }

  function DebugMember(m: Member): string
  {
    DebugStr(m.key) + ": " + Debug(m.value)
  }

  /** `{:?}` of an `Option<Value>`. */
  function DebugOption(o: Option<Json>): string
  {
    match o
    case None => "None"
    case Some(v) => "Some(" + Debug(v) + ")"
  }
}
