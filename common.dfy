/** Shared vocabulary of the model: optional values, results, abstract
    errors, instants, Go's 64-bit integer arithmetic and decimal rendering. */
module Common {

  datatype Option<+T> = None | Some(value: T)

  datatype Result<+T, +E> = Ok(value: T) | Err(error: E)

  /** An error reported by a collaborator the model does not look into
      (Postgres, the broker, the JSON codec). `DuplicateKey` is the
      unique-key violation of the short_links table. */
  datatype Error = Failure(code: nat) | DuplicateKey

  /** HTTP status codes the handlers answer with. */
  const StatusOK: int := 200
  const StatusCreated: int := 201
  const StatusFound: int := 302
  const StatusBadRequest: int := 400
  const StatusNotFound: int := 404
  const StatusConflict: int := 409
  const StatusUnprocessableEntity: int := 422
  const StatusInternalServerError: int := 500

  /** An instant, in nanoseconds from an arbitrary origin. */
  type Time = int

  /** Go's zero `time.Time`, the value of a time field nobody assigned. */
  const ZeroTime: Time := 0

  const Int64Modulus: int := 0x1_0000_0000_0000_0000
  const MinInt64: int := -0x8000_0000_0000_0000
  const MaxInt64: int := 0x7fff_ffff_ffff_ffff

  /** Go's `int` on a 64-bit platform. */
  type Int64 = x: int | MinInt64 <= x <= MaxInt64

  /** Two's-complement wrap-around of an exact product to 64 bits, as Go's
      signed multiplication does on overflow. */
  function Wrap64(x: int): (r: Int64)
    ensures (r - x) % Int64Modulus == 0
    ensures MinInt64 <= x <= MaxInt64 ==> r == x
  {
    var m := (x - MinInt64) % Int64Modulus;
    m + MinInt64
  }

  function DigitChar(d: nat): (c: char)
    requires d < 10
    ensures '0' <= c <= '9'
    ensures c as int - '0' as int == d
  {
    "0123456789"[d]
  }

  /** Decimal rendering of a natural number, most significant digit first. */
  function Digits(n: nat): (s: string)
    ensures 1 <= |s|
    ensures forall i :: 0 <= i < |s| ==> '0' <= s[i] <= '9'
    ensures n < 10 <==> |s| == 1
    ensures s[0] == '0' ==> n == 0
    decreases n
  {
    if n < 10 then [DigitChar(n)] else Digits(n / 10) + [DigitChar(n % 10)]
  }

  /** Value of a string of decimal digits: the inverse of `Digits`. */
  function DigitsValue(s: string): int
    decreases |s|
  {
    if s == [] then 0 else 10 * DigitsValue(s[..|s| - 1]) + (s[|s| - 1] as int - '0' as int)
  }

  lemma {:induction false} DigitsRoundTrip(n: nat)
    ensures DigitsValue(Digits(n)) == n
    decreases n
  {
    if n >= 10 {
      var s := Digits(n);
      assert s[..|s| - 1] == Digits(n / 10);
      DigitsRoundTrip(n / 10);
    }
  }

  /** `fmt.Sprint` of a Go int: an optional minus sign, then the digits. */
  function Decimal(n: int): (s: string)
    ensures n >= 0 ==> 1 <= |s| && (s[0] == '0' ==> n == 0 && s == "0")
    ensures n >= 0 ==> DigitsValue(s) == n && forall i :: 0 <= i < |s| ==> '0' <= s[i] <= '9'
    ensures n < 0 ==> |s| >= 2 && s[0] == '-' && DigitsValue(s[1..]) == -n
    ensures n < 0 ==> s[1] != '0' && forall i :: 1 <= i < |s| ==> '0' <= s[i] <= '9'
  {
    if n < 0 then
      DigitsRoundTrip(-n);
      assert ("-" + Digits(-n))[1..] == Digits(-n);
      "-" + Digits(-n)
    else
      DigitsRoundTrip(n);
      Digits(n)
  }
}
