/** Parsing the HTTP Retry-After header into the hint that feeds the retry delay. */
module RetryAfter {
  import opened Wrappers
  import opened Strings
  import opened Words
  import opened Errors
  import opened Retry

  const NANOSECONDS := 1_000_000_000

  predicate IsDigit(c: char) {
    '0' <= c <= '9'
  }

  function DigitValue(c: char): nat
    requires IsDigit(c)
  {
    c as int - '0' as int
  }

  predicate AllDigits(s: string) {
    s != [] && forall i | 0 <= i < |s| :: IsDigit(s[i])
  }

  /** The number a string of digits denotes. */
  function Value(s: string): nat
    requires forall i | 0 <= i < |s| :: IsDigit(s[i])
  {
    if s == [] then 0 else Value(s[..|s| - 1]) * 10 + DigitValue(s[|s| - 1])
  }

  /** strconv.ParseInt in base 10 for 64 bits: an optional sign, digits, and a range check. */
  function ParseInt(s: string): Option<Int64> {
    var signed := s != [] && (s[0] == '+' || s[0] == '-');
    var digits := if signed then s[1..] else s;
    if !AllDigits(digits) then None
    else
      var magnitude: int := Value(digits);
      var v := if signed && s[0] == '-' then 0 - magnitude else magnitude;
      if MIN_INT64 <= v <= MAX_INT64 then Some(v) else None
  }

  /**
   `parseRetryAfter`. `date` is http.ParseTime followed by the difference to the current time,
   None when the text is no HTTP date.
   */
  function ParseRetryAfter(value: string, date: string -> Option<Int64>): (r: Int64)
    ensures r >= 0
  {
    var text := TrimSpace(value);
    if text == "" then 0
    else
      var seconds := ParseInt(text);
      if seconds.Some? && seconds.value >= 0 then
        if seconds.value > MAX_INT64 / NANOSECONDS then MAX_INT64 else seconds.value * NANOSECONDS
      else
        match date(text)
        case None => 0
        case Some(wait) => if wait <= 0 then 0 else wait
  }

  // ---------------------------------------------------------------- delay-seconds

  /** The decimal digits of a number, without leading zeros. */
  function Decimal(n: nat): (s: string)
    ensures AllDigits(s) && Value(s) == n
  {
    var last := [('0' as int + n % 10) as char];
    if n < 10 then last
    else
      var s := Decimal(n / 10) + last;
      assert s[..|s| - 1] == Decimal(n / 10);
      s
  }

  /** White space around a value does not matter. */
  lemma {:induction false} PaddingIsTrimmed(left: string, s: string, right: string)
    requires forall i | 0 <= i < |left| :: IsSpace(left[i])
    requires forall i | 0 <= i < |right| :: IsSpace(right[i])
    requires AllDigits(s)
    ensures TrimSpace(left + s + right) == s
    decreases |left| + |right|
  {
    if left != [] {
      assert (left + s + right)[1..] == left[1..] + s + right;
      PaddingIsTrimmed(left[1..], s, right);
    } else {
      assert left + s + right == s + right;
      assert !IsSpace((s + right)[0]);
      RightPaddingIsTrimmed(s, right);
    }
  }

  lemma {:induction false} RightPaddingIsTrimmed(s: string, right: string)
    requires forall i | 0 <= i < |right| :: IsSpace(right[i])
    requires AllDigits(s)
    ensures TrimRight(s + right) == s
    decreases |right|
  {
    if right == [] {
      assert s + right == s && !IsSpace(s[|s| - 1]);
    } else {
      assert (s + right)[..|s + right| - 1] == s + right[..|right| - 1];
      RightPaddingIsTrimmed(s, right[..|right| - 1]);
    }
  }

  /**
   A header of delay-seconds, padded or not and with or without leading zeros, asks for
   min(n * 10^9, 2^63 - 1) nanoseconds as long as its value n fits 64 bits. A larger number is no
   integer to the parser: what the date parser makes of it decides, and the hint is lost when the
   date parser rejects it.
   */
  lemma DelaySeconds(s: string, left: string, right: string, date: string -> Option<Int64>)
    requires AllDigits(s)
    requires forall i | 0 <= i < |left| :: IsSpace(left[i])
    requires forall i | 0 <= i < |right| :: IsSpace(right[i])
    ensures ParseRetryAfter(left + s + right, date) ==
      if Value(s) <= MAX_INT64 then Min(Value(s) * NANOSECONDS, MAX_INT64)
      else UntilDate(s, date)
  {
    PaddingIsTrimmed(left, s, right);
    ParsesDigits(s);
  }

  lemma ParsesDigits(s: string)
    requires AllDigits(s)
    ensures ParseInt(s) == if Value(s) <= MAX_INT64 then Some(Value(s)) else None
  {
    assert IsDigit(s[0]);
  }

  /** What is left of a header that is no number of seconds: the wait until a date, if it is one. */
  function UntilDate(text: string, date: string -> Option<Int64>): int {
    match date(text) case None => 0 case Some(wait) => Max(wait, 0)
  }

  /** A plus sign changes nothing; a minus sign makes any number but zero no number of seconds. */
  lemma SignedSeconds(s: string, date: string -> Option<Int64>)
    requires AllDigits(s)
    ensures Value(s) <= MAX_INT64 ==> ParseRetryAfter("+" + s, date) == Min(Value(s) * NANOSECONDS, MAX_INT64)
    ensures ParseRetryAfter("-" + s, date) == if Value(s) == 0 then 0 else UntilDate("-" + s, date)
  {
    assert ("+" + s)[1..] == s && ("-" + s)[1..] == s;
    assert IsDigit(s[|s| - 1]);
    TrimmedAlready("+" + s);
    TrimmedAlready("-" + s);
  }

  /** Any other header asks for the wait until its date; a blank one asks for nothing. */
  lemma OtherHeaders(value: string, date: string -> Option<Int64>)
    requires !AllDigits(TrimSpace(value))
    ensures TrimSpace(value) == "" ==> ParseRetryAfter(value, date) == 0
    ensures TrimSpace(value) != "" && (TrimSpace(value)[0] in {'+', '-'} ==> !AllDigits(TrimSpace(value)[1..])) ==>
      ParseRetryAfter(value, date) == UntilDate(TrimSpace(value), date)
  {
  }

  /** The saturated delay is asked for exactly when the seconds fit 64 bits, as digits are no HTTP date. */
  lemma DelaySecondsHonoured(s: string, left: string, right: string, date: string -> Option<Int64>)
    requires AllDigits(s) && date(s) == None
    requires forall i | 0 <= i < |left| :: IsSpace(left[i])
    requires forall i | 0 <= i < |right| :: IsSpace(right[i])
    ensures ParseRetryAfter(left + s + right, date) == Min(Value(s) * NANOSECONDS, MAX_INT64) <==> Value(s) <= MAX_INT64
  {
    DelaySeconds(s, left, right, date);
  }

  /** The smallest number of seconds whose hint is lost. */
  lemma HintIsLost(date: string -> Option<Int64>)
    requires date(Decimal(MAX_INT64 + 1)) == None
    ensures ParseRetryAfter(Decimal(MAX_INT64 + 1), date) == 0
  {
    var s := Decimal(MAX_INT64 + 1);
    assert "" + s + "" == s;
    DelaySeconds(s, "", "", date);
  }

  /**
   The hint of any header, whether seconds or an HTTP date, bounds the next delay from below,
   however small MaxBackoff is.
   */
  lemma HintBoundsDelay(cfg: RetryConfig, retry: int, value: string, date: string -> Option<Int64>,
                        last: DeliveryResult, draw: Int64 -> Int64)
    requires last.retryAfter == ParseRetryAfter(value, date)
    ensures var (text, delay) := (TrimSpace(value), Delay(cfg, retry, last, draw));
      && (AllDigits(text) && Value(text) <= MAX_INT64 ==> delay >= Min(Value(text) * NANOSECONDS, MAX_INT64))
      && (text != "" && ParseInt(text) == None && date(text).Some? ==> delay >= date(text).value)
  {
    var text := TrimSpace(value);
    if AllDigits(text) {
      ParsesDigits(text);
    }
  }
}
