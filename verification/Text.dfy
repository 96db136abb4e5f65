/** String helpers shared by the models: optional values, trimming, and the zero-padded
    numbers generated identifiers are built from. */
module Text {

  datatype Option<+T> = None | Some(value: T)

  datatype Result<+T, +E> = Ok(value: T) | Err(error: E)

  // ---------------------------------------------------------------- trimming

  function TrimStart(s: string, space: char -> bool): string {
    if s != [] && space(s[0]) then TrimStart(s[1..], space) else s
  }

  function TrimEnd(s: string, space: char -> bool): string {
    if s != [] && space(s[|s| - 1]) then TrimEnd(s[..|s| - 1], space) else s
  }

  function Trim(s: string, space: char -> bool): string {
    TrimEnd(TrimStart(s, space), space)
  }

  /** `s` neither starts nor ends with white space. */
  predicate Clean(s: string, space: char -> bool) {
    s == [] || (!space(s[0]) && !space(s[|s| - 1]))
  }

  lemma {:induction false} TrimStartShape(s: string, space: char -> bool)
    ensures var r := TrimStart(s, space); r == [] || !space(r[0])
    ensures |TrimStart(s, space)| <= |s|
    ensures s != [] && !space(s[|s| - 1]) ==>
      var r := TrimStart(s, space); r != [] && r[|r| - 1] == s[|s| - 1]
  {
    if s != [] && space(s[0]) {
      TrimStartShape(s[1..], space);
    }
  }

  lemma {:induction false} TrimEndShape(s: string, space: char -> bool)
    ensures var r := TrimEnd(s, space); r == [] || (!space(r[|r| - 1]) && r[0] == s[0])
    ensures |TrimEnd(s, space)| <= |s|
  {
    if s != [] && space(s[|s| - 1]) {
      TrimEndShape(s[..|s| - 1], space);
    }
  }

  /** Trimming leaves a string alone exactly when it is already clean. */
  lemma {:induction false} TrimFixesClean(s: string, space: char -> bool)
    ensures Clean(Trim(s, space), space)
    ensures Trim(s, space) == s <==> Clean(s, space)
    ensures Trim(Trim(s, space), space) == Trim(s, space)
  {
    TrimStartShape(s, space);
    TrimEndShape(TrimStart(s, space), space);
  }

  /** The white space that Python's `str.strip` removes. */
  predicate IsPythonSpace(c: char) {
    var n := c as int;
    9 <= n <= 13 || 0x1C <= n <= 0x20 || n in {0x85, 0xA0, 0x1680, 0x2028, 0x2029, 0x202F, 0x205F, 0x3000} || 0x2000 <= n <= 0x200A
  }

  // ---------------------------------------------------------------- numbers

  predicate IsDigit(c: char) { '0' <= c <= '9' }

  function Digit(d: nat): char
    requires d < 10
  {
    ('0' as int + d) as char
  }

  function Decimal(n: nat): string {
    if n < 10 then [Digit(n)] else Decimal(n / 10) + [Digit(n % 10)]
  }

  function Zeros(n: nat): string {
    if n == 0 then "" else "0" + Zeros(n - 1)
  }

  /** The `04d` format: at least four digits, padded with zeros on the left. */
  function Pad4(n: nat): string {
    var d := Decimal(n);
    if |d| < 4 then Zeros(4 - |d|) + d else d
  }

  ghost function ValueOf(s: string): nat {
    if s == [] then 0
    else 10 * ValueOf(s[..|s| - 1]) + (if IsDigit(s[|s| - 1]) then s[|s| - 1] as int - '0' as int else 0)
  }

  ghost predicate AllDigits(s: string) { forall i :: 0 <= i < |s| ==> IsDigit(s[i]) }

  lemma {:induction false} DecimalValue(n: nat)
    ensures ValueOf(Decimal(n)) == n && AllDigits(Decimal(n)) && |Decimal(n)| >= 1
  {
    if n < 10 {
      assert Decimal(n)[..0] == [];
    } else {
      DecimalValue(n / 10);
      assert Decimal(n)[..|Decimal(n)| - 1] == Decimal(n / 10);
    }
  }

  lemma {:induction false} ZerosEnd(n: nat)
    requires n > 0
    ensures Zeros(n) == Zeros(n - 1) + "0"
  {
    if n > 1 {
      ZerosEnd(n - 1);
    }
  }

  lemma {:induction false} ZerosAreDigits(n: nat)
    ensures |Zeros(n)| == n && AllDigits(Zeros(n))
  {
    if n > 0 { ZerosAreDigits(n - 1); }
  }

  lemma {:induction false} ValueAppends(s: string, c: char)
    requires IsDigit(c)
    ensures ValueOf(s + [c]) == 10 * ValueOf(s) + c as int - '0' as int
  {
    assert (s + [c])[..|s|] == s;
  }

  lemma {:induction false} NothingWorth(n: nat)
    ensures ValueOf(Zeros(n)) == 0
  {
    if n > 0 {
      NothingWorth(n - 1);
      ZerosEnd(n);
      ValueAppends(Zeros(n - 1), '0');
    }
  }

  lemma {:induction false} ZerosValue(n: nat, s: string)
    requires AllDigits(s)
    ensures ValueOf(Zeros(n) + s) == ValueOf(s)
    ensures AllDigits(Zeros(n) + s) && |Zeros(n)| == n
    decreases |s|
  {
    ZerosAreDigits(n);
    if s == [] {
      assert Zeros(n) + s == Zeros(n);
      NothingWorth(n);
    } else {
      var front, last := s[..|s| - 1], s[|s| - 1];
      ZerosValue(n, front);
      ValueAppends(Zeros(n) + front, last);
      assert Zeros(n) + s == Zeros(n) + front + [last];
    }
  }

  lemma {:induction false} Pad4Value(n: nat)
    ensures ValueOf(Pad4(n)) == n && AllDigits(Pad4(n)) && |Pad4(n)| >= 4
  {
    DecimalValue(n);
    var d := Decimal(n);
    if |d| < 4 {
      ZerosValue(4 - |d|, d);
    }
  }

  /** Generated numbers never collide, padded or not. */
  lemma {:induction false} Pad4Injective(a: nat, b: nat)
    requires Pad4(a) == Pad4(b)
    ensures a == b
  {
    Pad4Value(a);
    Pad4Value(b);
  }
}
