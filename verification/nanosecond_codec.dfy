/** A concrete codec over Go's "ns" unit: `Show` prints what `Duration.String`
    prints for durations under one microsecond ("999ns", "-5ns") and `Parse`
    accepts the part of `time.ParseDuration`'s grammar made of an optional sign
    ('-' or '+'), decimal digits and the "ns" unit, with its int64 overflow check. Proving it `Lawful` shows that the
    assumptions the pasteDuration codec rests on can all hold at once. */
module NanosecondCodec {
  import opened Base
  import PasteDuration

  predicate IsDigit(c: char)
  {
    '0' <= c <= '9'
  }

  predicate AllDigits(s: string)
  {
    forall i :: 0 <= i < |s| ==> IsDigit(s[i])
  }

  function DigitChar(n: nat): (c: char)
    requires n < 10
    ensures IsDigit(c)
  {
    ('0' as int + n) as char
  }

  /** Decimal numeral of `n`, most significant digit first. */
  function ShowNat(n: nat): (r: string)
    ensures |r| > 0 && AllDigits(r)
    decreases n
  {
    if n < 10 then [DigitChar(n)] else ShowNat(n / 10) + [DigitChar(n % 10)]
  }

  /** Value of a run of decimal digits ("" is 0). */
  function DigitsValue(s: string): nat
    requires AllDigits(s)
  {
    if |s| == 0 then 0 else DigitsValue(s[..|s| - 1]) * 10 + (s[|s| - 1] as int - '0' as int)
  }

  lemma {:induction false} DigitsValueOfShowNat(n: nat)
    ensures DigitsValue(ShowNat(n)) == n
    decreases n
  {
    if n >= 10 {
      var s := ShowNat(n);
      assert s[..|s| - 1] == ShowNat(n / 10);
      DigitsValueOfShowNat(n / 10);
    }
  }

  function Show(d: Duration): (r: string)
    ensures |r| >= 3 && r[|r| - 2..] == "ns"
  {
    if d < 0 then "-" + ShowNat(-(d as int)) + "ns" else ShowNat(d) + "ns"
  }

  function Parse(s: string): (r: Result<Duration>)
    ensures r.Ok? ==> |s| >= 3 && s[|s| - 2..] == "ns"
  {
    if |s| < 3 || s[|s| - 2..] != "ns" then Err(Failure("time: missing unit in duration"))
    else
      var body := s[..|s| - 2];
      var negative := body[0] == '-';
      var digits := if negative || body[0] == '+' then body[1..] else body;
      if |digits| == 0 || !AllDigits(digits) then Err(Failure("time: invalid duration"))
      else
        var v: int := if negative then 0 - DigitsValue(digits) as int else DigitsValue(digits);
        if MinInt64 <= v <= MaxInt64 then Ok(v) else Err(Failure("time: invalid duration"))
  }

  const NanosecondCodec: PasteDuration.Codec := PasteDuration.Codec(Show, Parse, "Never")

  lemma ParseShow(d: Duration)
    ensures Parse(Show(d)) == Ok(d)
  {
    var s := Show(d);
    var body := s[..|s| - 2];
    if d < 0 {
      assert body == "-" + ShowNat(-(d as int));
      assert body[1..] == ShowNat(-(d as int));
      DigitsValueOfShowNat(-(d as int));
    } else {
      assert body == ShowNat(d);
      assert IsDigit(body[0]);
      DigitsValueOfShowNat(d);
    }
  }

  lemma UnitlessNotParsed(s: string)
    requires PasteDuration.IsUnitless(s)
    ensures Parse(s).Err?
  {
    if |s| >= 3 {
      assert s[|s| - 2..][1] == s[|s| - 1];
    }
  }

  /** The concrete codec meets every assumption of `PasteDuration.Lawful`. */
  lemma NanosecondCodecIsLawful()
    ensures PasteDuration.Lawful(NanosecondCodec)
  {
    var c := NanosecondCodec;
    forall d: Duration | d != 0
      ensures c.parse(c.show(d)) == Ok(d)
      ensures c.show(d) != c.neverExpire
    {
      ParseShow(d);
      var s := Show(d);
      assert s[|s| - 1] == 's';
    }
    forall s | PasteDuration.IsUnitless(s)
      ensures c.parse(s).Err?
    {
      UnitlessNotParsed(s);
    }
  }
}
