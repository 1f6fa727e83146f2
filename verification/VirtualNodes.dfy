/** The text keys "name:number" under which an upstream is placed on the hash ring. */
module VirtualNodes {

  function Digit(d: nat): char
    requires d < 10
  {
    '0' + d as char
  }

  /** Decimal notation without leading zeros, as `format!` prints an unsigned number. */
  function Decimal(n: nat): string {
    if n < 10 then [Digit(n)] else Decimal(n / 10) + [Digit(n % 10)]
  }

  /** The number a decimal text stands for. */
  function Parse(s: string): int {
    if s == "" then 0 else 10 * Parse(s[..|s| - 1]) + (s[|s| - 1] as int - '0' as int)
  }

  function VirtualKey(name: string, number: nat): string {
    name + ":" + Decimal(number)
  }

  lemma {:induction false} DecimalParses(n: nat)
    ensures Parse(Decimal(n)) == n
    ensures forall c | c in Decimal(n) :: c != ':'
  {
    if n < 10 {
      assert Decimal(n)[..0] == "";
    } else {
      DecimalParses(n / 10);
      assert Decimal(n)[..|Decimal(n)| - 1] == Decimal(n / 10);
    }
  }

  /** The last colon of a key stands right behind the name. */
  lemma KeyColons(name: string, number: nat)
    ensures var key := VirtualKey(name, number);
            key[|name|] == ':' && forall i | |name| < i < |key| :: key[i] != ':'
  {
    var key, d := VirtualKey(name, number), Decimal(number);
    DecimalParses(number);
    forall i | |name| < i < |key| ensures key[i] != ':' {
      assert key[i] == d[i - |name| - 1];
      assert key[i] in d;
    }
  }

  /** The number is written in the digits '0' to '9', without leading zeros. */
  lemma {:induction false} DecimalDigits(n: nat)
    ensures Decimal(n) != "" && forall c | c in Decimal(n) :: 48 <= c as int <= 57
    ensures n > 0 ==> Decimal(n)[0] != '0'
    ensures n < 10 ==> Decimal(n) == [(48 + n) as char]
  {
    if n >= 10 {
      DecimalDigits(n / 10);
    }
  }

  /** A key determines both its parts, because the last colon separates them, whatever the name contains. */
  lemma {:induction false} VirtualKeyInjective(name: string, number: nat, name': string, number': nat)
    requires VirtualKey(name, number) == VirtualKey(name', number')
    ensures name == name' && number == number'
  {
    var key := VirtualKey(name, number);
    KeyColons(name, number);
    KeyColons(name', number');
    assert |name| == |name'|;
    assert name == key[..|name|] == name';
    assert Decimal(number) == key[|name| + 1..] == Decimal(number');
    DecimalParses(number);
    DecimalParses(number');
  }
}
