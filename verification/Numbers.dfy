/** Numbers and booleans as they are printed into settings and read back. */
module Numbers {
  import opened Wrappers
  import opened Text

  function Digit(n: nat): char
    requires n < 10
  {
    ('0' as int + n) as char
  }

  function ShowNat(n: nat): string {
    if n < 10 then [Digit(n)] else ShowNat(n / 10) + [Digit(n % 10)]
  }

  predicate IsDigit(c: char) { '0' <= c <= '9' }

  function ReadNat(s: string): Option<nat> {
    if s == "" || !IsDigit(s[|s| - 1]) then None
    else
      var last := s[|s| - 1] as int - '0' as int;
      if |s| == 1 then Some(last)
      else match ReadNat(s[..|s| - 1]) case None => None case Some(n) => Some(10 * n + last)
  }

  const MAX_INT := 0x7fff_ffff_ffff_ffff

  /** Numbers of 64 bits. */
  type Int = n: int | -MAX_INT - 1 <= n <= MAX_INT

  /** Digits with an optional sign; a number that does not fit is refused. */
  function ReadInt(s: string): Option<Int> {
    var signed := s != "" && (s[0] == '-' || s[0] == '+');
    match ReadNat(if signed then s[1..] else s)
    case None => None
    case Some(n) =>
      var m: int := n;
      var value := if signed && s[0] == '-' then -m else m;
      if -MAX_INT - 1 <= value <= MAX_INT then Some(value) else None
  }

  lemma {:induction false} ReadShown(n: nat)
    ensures ReadNat(ShowNat(n)) == Some(n) && ShowNat(n) != ""
    ensures forall i :: 0 <= i < |ShowNat(n)| ==> IsDigit(ShowNat(n)[i])
  {
    if n >= 10 {
      ReadShown(n / 10);
      assert ShowNat(n)[..|ShowNat(n)| - 1] == ShowNat(n / 10);
    }
  }

  /** Whatever number is printed is read back, also after trimming. */
  lemma {:induction false} NumberRoundTrip(n: nat)
    requires n <= MAX_INT
    ensures ReadInt(ShowNat(n)) == Some(n) && Trim(ShowNat(n)) == ShowNat(n) && ShowNat(n) != ""
    ensures ShowNat(n) == "0" ==> n == 0
  {
    ReadShown(n);
    TrimTrims(ShowNat(n));
    assert IsDigit(ShowNat(n)[0]);
    if ShowNat(n) == "0" { assert ReadNat("0") == Some(0); }
  }

  /** A printed number with a sign or without is read as that number, unless it does not fit. */
  lemma {:induction false} SignedExactly(n: nat)
    ensures ReadInt("-" + ShowNat(n)) == if n <= MAX_INT + 1 then Some(0 - n) else None
    ensures ReadInt("+" + ShowNat(n)) == if n <= MAX_INT then Some(n) else None
    ensures ReadInt(ShowNat(n)) == if n <= MAX_INT then Some(n) else None
  {
    hide ReadNat, ShowNat;
    ReadShown(n);
    assert ("-" + ShowNat(n))[1..] == ShowNat(n) && ("+" + ShowNat(n))[1..] == ShowNat(n);
    assert IsDigit(ShowNat(n)[0]);
  }

  lemma {:induction false} OnlyDigitsRead(s: string)
    ensures ReadNat(s).Some? <==> s != "" && forall i :: 0 <= i < |s| ==> IsDigit(s[i])
  {
    if |s| > 1 {
      OnlyDigitsRead(s[..|s| - 1]);
      assert forall i :: 0 <= i < |s| - 1 ==> s[..|s| - 1][i] == s[i];
    }
  }

  function ShowBool(b: bool): string { if b then "true" else "false" }

  function ReadBool(s: string): Option<bool> {
    if s in {"1", "t", "T", "TRUE", "true", "True"} then Some(true)
    else if s in {"0", "f", "F", "FALSE", "false", "False"} then Some(false)
    else None
  }

  lemma {:induction false} BoolRoundTrip(b: bool)
    ensures ReadBool(ShowBool(b)) == Some(b) && Trim(ShowBool(b)) == ShowBool(b) && ShowBool(b) != ""
  {
    TrimTrims(ShowBool(b));
  }
}
