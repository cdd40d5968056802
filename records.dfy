/**
 * Table records. A record is an ordered list of (key, value) entries, so
 * that the order of its keys is the order Object.keys reports; a value is a
 * number (integers only), a string, null or undefined.
 */
module Records {

  datatype Value = Num(n: int) | Str(s: string) | Null | Undefined

  datatype Entry = Entry(key: string, value: Value)

  type Record = seq<Entry>

  /**
   * Field access `record[key]`: the value of the first entry named `key`,
   * or undefined when the record has no such entry.
   */
  function Get(r: Record, key: string): (v: Value)
    ensures (forall i :: 0 <= i < |r| ==> r[i].key != key) ==> v == Undefined
    ensures forall i :: 0 <= i < |r| && r[i].key == key && (forall j :: 0 <= j < i ==> r[j].key != key) ==> v == r[i].value
  {
    if r == [] then Undefined
    else if r[0].key == key then r[0].value
    else
      var rest := r[1..];
      var v := Get(rest, key);
      assert (forall i :: 0 <= i < |r| ==> r[i].key != key) ==> v == Undefined by {
        if forall i :: 0 <= i < |r| ==> r[i].key != key {
          forall i | 0 <= i < |rest| ensures rest[i].key != key {
            assert rest[i] == r[i + 1];
          }
        }
      }
      assert forall i :: 0 <= i < |r| && r[i].key == key && (forall j :: 0 <= j < i ==> r[j].key != key) ==> v == r[i].value by {
        forall i | 0 <= i < |r| && r[i].key == key && (forall j :: 0 <= j < i ==> r[j].key != key)
          ensures v == r[i].value
        {
          forall j | 0 <= j < i - 1 ensures rest[j].key != key {
            assert rest[j] == r[j + 1];
          }
          assert rest[i - 1] == r[i];
        }
      }
      v
  }

  /** The decimal digit for 0 <= d <= 9. */
  function DigitChar(d: nat): char
    requires d < 10
  {
    "0123456789"[d]
  }

  /** The value of a decimal digit character. */
  function DigitValue(c: char): nat
  {
    if '0' <= c <= '9' then c as nat - '0' as nat else 0
  }

  /** The decimal digits of `n`, most significant first, without leading zeros. */
  function NatToDecimal(n: nat): (s: string)
    ensures |s| >= 1
    ensures forall i :: 0 <= i < |s| ==> '0' <= s[i] <= '9'
    ensures s[0] == '0' ==> n == 0
    decreases n
  {
    if n < 10 then [DigitChar(n)] else NatToDecimal(n / 10) + [DigitChar(n % 10)]
  }

  /** Reads a string of decimal digits back as a number. */
  function DecimalValue(s: string): nat
  {
    if s == [] then 0 else DecimalValue(s[..|s| - 1]) * 10 + DigitValue(s[|s| - 1])
  }

  /** Reading back the decimal digits of `n` gives `n`: the rendering loses nothing. */
  lemma {:induction false} DecimalRoundTrip(n: nat)
    ensures DecimalValue(NatToDecimal(n)) == n
    decreases n
  {
    var s := NatToDecimal(n);
    if n < 10 {
      assert DigitValue(DigitChar(n)) == n;
      assert s[..0] == [];
    } else {
      DecimalRoundTrip(n / 10);
      assert s[..|s| - 1] == NatToDecimal(n / 10);
      assert DigitValue(DigitChar(n % 10)) == n % 10;
    }
  }

  /** String(n) for an integer number. */
  function IntToDecimal(n: int): string
  {
    if n < 0 then "-" + NatToDecimal(-n) else NatToDecimal(n)
  }

  /** String(value): how a value is shown and how the filter sees it. */
  function Stringify(v: Value): string
  {
    match v
    case Num(n) => IntToDecimal(n)
    case Str(s) => s
    case Null => "null"
    case Undefined => "undefined"
  }
}
