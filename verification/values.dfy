/**
 * The values a round-trip YAML load produces for an entity's fields, with
 * Python's truthiness (what `if val.get(...)` tests), `str()` (what an
 * f-string or `str(etag)` prints) and `str.lower()`.
 */
module Values {

  datatype Value =
    | Null
    | Bool(b: bool)
    | Int(n: int)
    | Text(s: string)
    | List(items: seq<Value>)
    | Mapping(fields: seq<(string, Value)>)

  /** Python truthiness: None, False, 0 and empty strings, lists and mappings are falsy. */
  predicate Truthy(v: Value) {
    match v
    case Null => false
    case Bool(b) => b
    case Int(n) => n != 0
    case Text(s) => s != []
    case List(items) => items != []
    case Mapping(fields) => fields != []
  }

  function DigitChar(d: nat): char
    requires d < 10
  {
    "0123456789"[d]
  }

  function DigitValue(c: char): nat {
    if '0' <= c <= '9' then (c - '0') as nat else 0
  }

  /** Decimal digits of a natural number, most significant first. */
  function NatToString(n: nat): string
    decreases n
  {
    if n < 10 then [DigitChar(n)] else NatToString(n / 10) + [DigitChar(n % 10)]
  }

  /** Reads a string of decimal digits back as a number. */
  function ParseNat(s: string): nat
    decreases |s|
  {
    if s == [] then 0 else ParseNat(s[..|s| - 1]) * 10 + DigitValue(s[|s| - 1])
  }

  /** `str(n)` for a Python int. */
  function IntToString(n: int): string {
    if n < 0 then "-" + NatToString(-n) else NatToString(n)
  }

  /** Decimal printing is undone by parsing, so distinct counters print differently. */
  lemma {:induction false} ParseNatToString(n: nat)
    ensures ParseNat(NatToString(n)) == n
    decreases n
  {
    if n >= 10 {
      var s := NatToString(n);
      ParseNatToString(n / 10);
      assert s[..|s| - 1] == NatToString(n / 10);
    }
  }

  lemma NatToStringInjective(a: nat, b: nat)
    requires NatToString(a) == NatToString(b)
    ensures a == b
  {
    ParseNatToString(a);
    ParseNatToString(b);
  }

  /** The text standing in for `str()` of a list or mapping. */
  const ContainerText: string := "<container>"

  const NoneText: string := "None"
  const TrueText: string := "True"
  const FalseText: string := "False"

  /** Python `str()` of a loaded value. */
  function ToStr(v: Value): string {
    match v
    case Null => NoneText
    case Bool(b) => if b then TrueText else FalseText
    case Int(n) => IntToString(n)
    case Text(s) => s
    case List(_) => ContainerText
    case Mapping(_) => ContainerText
  }

  /** Stringifying a string changes nothing, so a stringified etag stays as it is. */
  lemma ToStrText(v: Value)
    ensures ToStr(Text(ToStr(v))) == ToStr(v)
    ensures v.Text? ==> Text(ToStr(v)) == v
  {
  }

  function LowerChar(c: char): char {
    if 'A' <= c <= 'Z' then (c - 'A' + 'a') as char else c
  }

  /** `str.lower()` on ASCII letters. */
  function Lower(s: string): (r: string)
    ensures |r| == |s|
  {
    seq(|s|, i requires 0 <= i < |s| => LowerChar(s[i]))
  }

  /** `op.lower() == 'update'` holds exactly for the case variants of "update". */
  lemma LowerIsUpdate(s: string)
    ensures Lower(s) == "update" <==>
      |s| == 6 && forall i :: 0 <= i < 6 ==> s[i] == "update"[i] || s[i] == "UPDATE"[i]
  {
    if |s| == 6 && forall i :: 0 <= i < 6 ==> s[i] == "update"[i] || s[i] == "UPDATE"[i] {
      assert forall i :: 0 <= i < 6 ==> Lower(s)[i] == "update"[i];
    }
    if Lower(s) == "update" {
      forall i | 0 <= i < 6
        ensures s[i] == "update"[i] || s[i] == "UPDATE"[i]
      {
        assert LowerChar(s[i]) == "update"[i];
      }
    }
  }
}
