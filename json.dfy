/**
 * The JSON values the effect and the reader read and write, with the jsoncpp
 * accessors they use. The text format and its parser are not part of this model:
 * parsing is a parameter that either yields an object or fails.
 */
module JsonModel {
  import opened Outcomes
  import opened Keyframes

  /** A JSON value; Curve(k) stands for the object a Keyframe serialises to. */
  datatype Json = Null | Int(i: int) | Str(s: string) | Curve(k: Keyframe)

  type JsonObject = map<string, Json>

  /** Parses a text into a JSON object, or fails. */
  type Parser = string -> Option<JsonObject>

  /** root[key]: a key that is absent reads as null. */
  function Member(root: JsonObject, key: string): (v: Json)
    ensures key !in root ==> v == Null
    ensures key in root ==> v == root[key]
  {
    if key in root then root[key] else Null
  }

  /** asInt(): None stands for the exception thrown for a value that is not a number. */
  function AsInt(v: Json): Option<int>
  {
    match v
    case Null => Some(0)
    case Int(i) => Some(i)
    case _ => None
  }

  /** asString(): a number is written in decimal; a curve object cannot be converted. */
  function AsString(v: Json): Option<string>
  {
    match v
    case Null => Some("")
    case Int(i) => Some(DecimalString(i))
    case Str(s) => Some(s)
    case Curve(_) => None
  }

  /** Keyframe::SetJsonValue: only a curve's own serialisation can be loaded. */
  function KeyframeFromJson(v: Json): Option<Keyframe>
  {
    match v
    case Curve(k) => Some(k)
    case _ => None
  }

  function DigitChar(d: int): (c: char)
    requires 0 <= d < 10
    ensures '0' <= c <= '9'
  {
    (d + '0' as int) as char
  }

  /** The number a string of decimal digits denotes, most significant digit first. */
  function DigitsValue(s: string): nat
    requires forall i :: 0 <= i < |s| ==> '0' <= s[i] <= '9'
  {
    if |s| == 0 then 0
    else DigitsValue(s[..|s| - 1]) * 10 + (s[|s| - 1] as int - '0' as int)
  }

  /** The decimal form of a natural number, most significant digit first; read back, it is n. */
  function NatDigits(n: nat): (s: string)
    ensures |s| >= 1
    ensures forall i :: 0 <= i < |s| ==> '0' <= s[i] <= '9'
    ensures DigitsValue(s) == n
    ensures n == 0 ==> s == "0"
    ensures n >= 1 ==> s[0] != '0'
  {
    if n < 10 then [DigitChar(n)]
    else
      var prefix := NatDigits(n / 10);
      var s := prefix + [DigitChar(n % 10)];
      assert s[..|s| - 1] == prefix;
      s
  }

  /** The decimal form of an integer, with a leading '-' when negative. */
  function DecimalString(i: int): (s: string)
    ensures |s| >= 1
    ensures (s[0] == '-') <==> (i < 0)
    ensures i >= 0 ==> s == NatDigits(i) && DigitsValue(s) == i
    ensures i < 0 ==> s[1..] == NatDigits(-i) && DigitsValue(s[1..]) == -i
  {
    if i < 0 then "-" + NatDigits(-i) else NatDigits(i)
  }
}
