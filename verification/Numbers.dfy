/** Numbers and their decimal digits. */
module Numbers {

  function Min(a: int, b: int): int {
    if a < b then a else b
  }

  function DigitChar(d: nat): char
    requires d < 10
  {
    '0' + d as char
  }

  function Digits(n: nat): string {
    if n < 10 then [DigitChar(n)] else Digits(n / 10) + [DigitChar(n % 10)]
  }
}
