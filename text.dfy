/** String operations of the Java standard library that the stages use, over `seq<char>`. */
module Text {
  import opened Wrappers

  function DigitChar(d: nat): (c: char)
    requires d < 16
  {
    if d < 10 then '0' + d as char else 'a' + (d - 10) as char
  }

  /** `Integer.toString` of a non-negative number: decimal, no leading zeros. */
  function NatToString(n: nat): (s: string)
    ensures |s| > 0
    ensures forall i :: 0 <= i < |s| ==> '0' <= s[i] <= '9'
    decreases n
  {
    if n < 10 then [DigitChar(n)] else NatToString(n / 10) + [DigitChar(n % 10)]
  }

  /** The value of a string of decimal digits, most significant digit first. */
  function DecimalValue(s: string): nat
    requires forall i :: 0 <= i < |s| ==> '0' <= s[i] <= '9'
  {
    if s == [] then 0 else DecimalValue(s[..|s| - 1]) * 10 + (s[|s| - 1] - '0') as nat
  }

  /** Reading back what NatToString wrote gives the number, and the text has no leading zero. */
  lemma {:induction false} NatToStringRoundTrip(n: nat)
    ensures DecimalValue(NatToString(n)) == n
    ensures |NatToString(n)| > 1 ==> NatToString(n)[0] != '0'
    decreases n
  {
    var s := NatToString(n);
    if n >= 10 {
      NatToStringRoundTrip(n / 10);
      assert s[..|s| - 1] == NatToString(n / 10);
      if |NatToString(n / 10)| == 1 {
        assert s[0] == DigitChar(n / 10);
      }
    } else {
      assert s[..0] == [];
    }
  }

  /** `Integer.toString` / string concatenation of an int. */
  function IntToString(i: int): string
  {
    if i < 0 then "-" + NatToString(-i) else NatToString(i)
  }

  /** Lower-case hexadecimal without leading zeros, as `Long.toHexString` writes it. */
  function HexString(n: nat): (s: string)
    ensures |s| > 0
    ensures forall i :: 0 <= i < |s| ==> HexDigitValue(s[i]).Some?
    decreases n
  {
    if n < 16 then [DigitChar(n)] else HexString(n / 16) + [DigitChar(n % 16)]
  }

  function HexDigitValue(c: char): Option<nat>
  {
    if '0' <= c <= '9' then Some((c - '0') as nat)
    else if 'a' <= c <= 'f' then Some((c - 'a') as nat + 10)
    else if 'A' <= c <= 'F' then Some((c - 'A') as nat + 10)
    else None
  }

  /** The value of a string of hexadecimal digits; None when a character is not a digit or the string is empty. */
  function HexValue(s: string): (r: Option<nat>)
    ensures r.Some? <==> s != [] && forall i :: 0 <= i < |s| ==> HexDigitValue(s[i]).Some?
  {
    if s == [] then None
    else
      match HexDigitValue(s[|s| - 1])
      case None => None
      case Some(d) =>
        if |s| == 1 then Some(d)
        else match HexValue(s[..|s| - 1])
             case None => None
             case Some(v) => Some(v * 16 + d)
  }

  /**
   * `new BigInteger(s, 16)`: an optional sign, then one or more hexadecimal
   * digits; None where the constructor throws NumberFormatException.
   */
  function SignedHexValue(s: string): (r: Option<int>)
    ensures r.Some? && s != [] && s[0] == '-' ==> r.value <= 0
    ensures s != [] && s[0] != '-' && s[0] != '+' ==> r == (match HexValue(s) case Some(v) => Some(v as int) case None => None)
  {
    if s != [] && s[0] == '-' then
      match HexValue(s[1..]) case Some(v) => Some(-(v as int)) case None => None
    else if s != [] && s[0] == '+' then
      match HexValue(s[1..]) case Some(v) => Some(v as int) case None => None
    else
      match HexValue(s) case Some(v) => Some(v as int) case None => None
  }

  /** Reading back what HexString wrote gives the number. */
  lemma {:induction false} HexRoundTrip(n: nat)
    ensures HexValue(HexString(n)) == Some(n)
    decreases n
  {
    if n >= 16 {
      HexRoundTrip(n / 16);
      var s := HexString(n);
      assert s[..|s| - 1] == HexString(n / 16);
    }
  }

  function LowerChar(c: char): char
  {
    if 'A' <= c <= 'Z' then c - 'A' + 'a' else c
  }

  /** `String.toLowerCase` restricted to the ASCII letters. */
  function ToLower(s: string): (r: string)
    ensures |r| == |s|
    ensures forall i :: 0 <= i < |s| ==> r[i] == LowerChar(s[i])
  {
    if s == [] then [] else [LowerChar(s[0])] + ToLower(s[1..])
  }

  /** Lower-casing twice is lower-casing once: a lower-cased key is its own lookup key. */
  lemma ToLowerIdempotent(s: string)
    ensures ToLower(ToLower(s)) == ToLower(s)
  {
  }

  /** `s.replaceAll("'", "\"")`: every single quote becomes a double quote. */
  function Requote(s: string): (r: string)
    ensures |r| == |s|
    ensures forall i :: 0 <= i < |s| ==> r[i] == (if s[i] == '\'' then '"' else s[i])
  {
    if s == [] then [] else [if s[0] == '\'' then '"' else s[0]] + Requote(s[1..])
  }

  /** `String.join(sep, parts)` / `Collectors.joining(sep)`. */
  function Join(parts: seq<string>, sep: string): string
  {
    if parts == [] then ""
    else if |parts| == 1 then parts[0]
    else parts[0] + sep + Join(parts[1..], sep)
  }
}
