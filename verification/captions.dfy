/** `make_caption` (utils.py) and the two template filters built on it,
    `f_format_duration` and `f_make_caption`, which frontend/jinja_env.py and
    core/JinjaEnvironmentManager.py each define with identical bodies; the model
    defines them once. */
module Captions {
  import opened Wrappers
  import opened Decimal

  /** Indexing past the end of `word_forms`. */
  datatype CaptionError = IndexError

  /** Python's `number % m` for a positive `m` is never negative; Dafny's `%` agrees. */
  predicate IsTeen(number: int) {
    10 < number % 100 < 20
  }

  /** The `for i in range(1, 5)` search for the last digit. */
  function DigitForm(lastDigit: int, i: nat): (r: Option<nat>)
    requires 1 <= i <= 5
    ensures r.Some? ==> 1 <= r.value <= 4 && r.value == lastDigit
    ensures r.None? ==> !(i <= lastDigit <= 4)
    decreases 5 - i
  {
    if i == 5 then None
    else if lastDigit == i then Some(i)
    else DigitForm(lastDigit, i + 1)
  }

  function Concat(forms: seq<string>, i: nat): Result<string, CaptionError> {
    if i < |forms| then Ok(forms[0] + forms[i]) else Err(IndexError)
  }

  /** `make_caption(number, word_forms)`: the stem `word_forms[0]` followed by the
      ending the number's last two digits select. */
  function MakeCaption(number: int, forms: seq<string>): (r: Result<string, CaptionError>)
    ensures IsTeen(number) ==> r == Concat(forms, 5)
    ensures !IsTeen(number) && 1 <= number % 10 <= 4 ==> r == Concat(forms, number % 10)
    ensures !IsTeen(number) && !(1 <= number % 10 <= 4) ==> r == Concat(forms, 5)
    ensures r.Ok? ==> |r.value| >= |forms[0]| && r.value[..|forms[0]|] == forms[0]
    ensures |forms| >= 6 ==> r.Ok?
  {
    if IsTeen(number) then Concat(forms, 5)
    else
      match DigitForm(number % 10, 1)
      case Some(i) => Concat(forms, i)
      case None => Concat(forms, 5)
  }

  /** The caption depends only on the number modulo 100. */
  lemma {:induction false} CaptionPeriodic(number: int, k: int, forms: seq<string>)
    ensures MakeCaption(number + 100 * k, forms) == MakeCaption(number, forms)
    ensures MakeCaption(number, forms) == MakeCaption(number % 100, forms)
  {
    Residues(number, k);
    SameResidues(number + 100 * k, number, forms);
    SameResidues(number, number % 100, forms);
  }

  lemma {:induction false} Residues(number: int, k: int)
    ensures (number + 100 * k) % 100 == number % 100 && (number + 100 * k) % 10 == number % 10
    ensures (number % 100) % 100 == number % 100 && (number % 100) % 10 == number % 10
  {
    var q, r := number / 100, number % 100;
    var q1, r1 := r / 10, r % 10;
    Mod100(number + 100 * k, q + k, r);
    Mod100(r, 0, r);
    Mod10(number, 10 * q + q1, r1);
    Mod10(number + 100 * k, 10 * (q + k) + q1, r1);
  }

  lemma {:induction false} Mod100(x: int, q: int, r: int)
    requires x == 100 * q + r && 0 <= r < 100
    ensures x % 100 == r
  {
  }

  lemma {:induction false} Mod10(x: int, q: int, r: int)
    requires x == 10 * q + r && 0 <= r < 10
    ensures x % 10 == r
  {
  }

  /** Numbers with the same last two digits get the same caption. */
  lemma {:induction false} SameResidues(a: int, b: int, forms: seq<string>)
    requires a % 100 == b % 100 && a % 10 == b % 10
    ensures MakeCaption(a, forms) == MakeCaption(b, forms)
  {
  }

  /** `f_format_duration(seconds)`: `divmod(seconds, 60)` rendered as `"{:d}:{:02d}"`. */
  function FormatDuration(seconds: int): (r: string)
    ensures |r| >= 4 && r[|r| - 3] == ':'
    ensures AllDigits(r[|r| - 2..]) && DigitsValue(r[|r| - 2..]) == seconds % 60 < 60
    ensures ParseInt(r[..|r| - 3]) == Some(seconds / 60)
    ensures seconds >= 0 ==> AllDigits(r[..|r| - 3])
  {
    var minutes := IntToString(seconds / 60);
    var secs := Pad2(seconds % 60);
    IntToStringRoundTrip(seconds / 60);
    JoinParts(minutes, secs);
    NonNegativeDigits(seconds / 60);
    minutes + ":" + secs
  }

  lemma {:induction false} NonNegativeDigits(n: int)
    ensures n >= 0 ==> AllDigits(IntToString(n))
  {
  }

  lemma {:induction false} JoinParts(a: string, b: string)
    requires |b| == 2
    ensures var r := a + ":" + b; r[..|r| - 3] == a && r[|r| - 3] == ':' && r[|r| - 2..] == b
  {
  }

  /** Minutes are not capped at 59: an hour reads as sixty minutes. */
  lemma {:induction false} FormatDurationHour()
    ensures FormatDuration(3600) == "60:00"
  {
    Sixty();
    PadZero();
    FormatDurationParts(3600, 60, 0, "60", "00");
    HourText();
  }

  /** Under a minute the minutes read `0`. */
  lemma {:induction false} FormatDurationUnderMinute()
    ensures FormatDuration(59) == "0:59"
  {
    assert IntToString(0) == "0";
    PadFiftyNine();
    FormatDurationParts(59, 0, 59, "0", "59");
    UnderMinuteText();
  }

  /** A negative duration floors: -1 second is minute -1, second 59. */
  lemma {:induction false} FormatDurationNegative()
    ensures FormatDuration(-1) == "-1:59"
  {
    MinusOne();
    PadFiftyNine();
    FormatDurationParts(-1, -1, 59, "-1", "59");
    NegativeText();
  }

  lemma {:induction false} Sixty()
    ensures IntToString(60) == "60"
  {
    assert NatToString(60) == NatToString(6) + "0";
  }

  lemma {:induction false} MinusOne()
    ensures IntToString(-1) == "-1"
  {
    assert NatToString(1) == "1";
  }

  lemma {:induction false} PadZero()
    ensures Pad2(0) == "00"
  {
    assert NatToString(0) == "0";
  }

  lemma {:induction false} PadFiftyNine()
    ensures Pad2(59) == "59"
  {
    assert NatToString(59) == NatToString(5) + "9";
  }

  lemma {:induction false} HourText()
    ensures "60" + ":" + "00" == "60:00"
  {
  }

  lemma {:induction false} UnderMinuteText()
    ensures "0" + ":" + "59" == "0:59"
  {
  }

  lemma {:induction false} NegativeText()
    ensures "-1" + ":" + "59" == "-1:59"
  {
  }

  lemma {:induction false} FormatDurationParts(seconds: int, m: int, sec: nat, minutes: string, secs: string)
    requires seconds == 60 * m + sec && sec < 60
    requires IntToString(m) == minutes && Pad2(sec) == secs
    ensures FormatDuration(seconds) == minutes + ":" + secs
  {
    assert seconds / 60 == m && seconds % 60 == sec;
  }

  /** `f_make_caption(number, forms_list)`: `"%d %s" % (number, make_caption(...))`. */
  function FormatCaption(number: int, forms: seq<string>): (r: Result<string, CaptionError>)
    ensures r.Ok? <==> MakeCaption(number, forms).Ok?
    ensures r.Ok? ==>
      var k := |IntToString(number)|;
      && |r.value| > k
      && ParseInt(r.value[..k]) == Some(number)
      && r.value[k] == ' '
      && r.value[k + 1..] == MakeCaption(number, forms).value
  {
    IntToStringRoundTrip(number);
    match MakeCaption(number, forms)
    case Ok(caption) =>
      var r := IntToString(number) + " " + caption;
      assert r[..|IntToString(number)|] == IntToString(number);
      assert r[|IntToString(number)| + 1..] == caption;
      Ok(r)
    case Err(e) => Err(e)
  }
}
