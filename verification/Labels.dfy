/** The labels of a decision: the expiry second in decimal, written at creation by the
    controller and read back by the retention sweep. */
module Labels {
  import opened Clock
  import opened Model

  const EXPIRES_AT := "scheduling.purestorage.io/expires-at"
  const POD_UID := "scheduling.purestorage.io/pod-uid"

  const MIN_INT64: int := -0x8000_0000_0000_0000
  const MAX_INT64: int := 0x7FFF_FFFF_FFFF_FFFF
  const DEFAULT_RETENTION: int := 72 * HOUR

  // ----- decimal numbers -----

  function Digit(d: nat): char
    requires d < 10
  {
    '0' + d as char
  }

  predicate IsDigit(c: char) {
    '0' <= c <= '9'
  }

  function FormatNat(n: nat): string {
    if n < 10 then [Digit(n)] else FormatNat(n / 10) + [Digit(n % 10)]
  }

  function FormatInt(n: int): string {
    if n < 0 then "-" + FormatNat(-n) else FormatNat(n)
  }

  predicate AllDigits(s: string) {
    forall i :: 0 <= i < |s| ==> IsDigit(s[i])
  }

  function DigitsValue(s: string): nat
    requires AllDigits(s)
  {
    if s == "" then 0
    else
      assert IsDigit(s[|s| - 1]);
      10 * DigitsValue(s[..|s| - 1]) + (s[|s| - 1] as int - '0' as int)
  }

  function InRange(value: int): Option<int> {
    if MIN_INT64 <= value <= MAX_INT64 then Some(value) else None
  }

  /** A base-10 number of 64 bits: one optional sign, then one or more digits; `None` for any
      other text and for a number out of range. */
  function ParseInt(s: string): Option<int> {
    if s == "" then None
    else
      var signed := s[0] == '-' || s[0] == '+';
      var digits := if signed then s[1..] else s;
      if digits == "" || !AllDigits(digits) then None
      else
        var magnitude: int := DigitsValue(digits);
        var value := if s[0] == '-' then -magnitude else magnitude;
        InRange(value)
  }

  lemma {:induction false} FormatNatParses(n: nat)
    ensures FormatNat(n) != "" && AllDigits(FormatNat(n)) && DigitsValue(FormatNat(n)) == n
  {
    if n >= 10 {
      FormatNatParses(n / 10);
      var s := FormatNat(n);
      assert s[..|s| - 1] == FormatNat(n / 10);
    } else {
      assert [Digit(n)][..0] == "";
    }
  }

  lemma {:induction false} ParseDigits(s: string)
    requires s != "" && AllDigits(s)
    ensures ParseInt(s) == InRange(DigitsValue(s))
  {
    assert IsDigit(s[0]);
  }

  lemma {:induction false} ParseNegated(s: string)
    requires s != "" && AllDigits(s)
    ensures ParseInt("-" + s) == InRange(0 - DigitsValue(s))
  {
    assert ("-" + s)[0] == '-' && ("-" + s)[1..] == s;
  }

  /** Parsing a formatted number gives it back when it fits in 64 bits and an error otherwise. */
  lemma FormatRoundTrip(n: int)
    ensures ParseInt(FormatInt(n)) == if MIN_INT64 <= n <= MAX_INT64 then Some(n) else None
  {
    if n < 0 {
      FormatNatParses(-n);
      ParseNegated(FormatNat(-n));
    } else {
      FormatNatParses(n);
      ParseDigits(FormatNat(n));
    }
  }

  function Pow10(n: nat): nat {
    if n == 0 then 1 else 10 * Pow10(n - 1)
  }

  predicate Digits(s: string) {
    s != "" && forall i :: 0 <= i < |s| ==> '0' <= s[i] <= '9'
  }

  /** Each digit counted by its place. */
  function PlaceValue(digits: string): int
    requires forall i :: 0 <= i < |digits| ==> '0' <= digits[i] <= '9'
  {
    if digits == "" then 0
    else (digits[0] as int - '0' as int) * Pow10(|digits| - 1) + PlaceValue(digits[1..])
  }

  predicate ReadsAs(s: string, digits: string, v: int) {
    && Digits(digits)
    && (((s == digits || s == "+" + digits) && v == PlaceValue(digits))
        || (s == "-" + digits && v == 0 - PlaceValue(digits)))
  }

  /** The text is this number: at least one digit, and at most one sign before them. */
  ghost predicate Reads(s: string, v: int) {
    exists digits :: ReadsAs(s, digits, v)
  }

  lemma {:induction false} PlaceValueOfOneMore(s: string, c: char)
    requires (forall i :: 0 <= i < |s| ==> '0' <= s[i] <= '9') && '0' <= c <= '9'
    ensures PlaceValue(s + [c]) == 10 * PlaceValue(s) + (c as int - '0' as int)
  {
    if s != "" {
      assert (s + [c])[1..] == s[1..] + [c];
      PlaceValueOfOneMore(s[1..], c);
      TenTimes(s[0] as int - '0' as int, Pow10(|s| - 1));
    } else {
      assert s + [c] == [c] && [c][1..] == "" && Pow10(0) == 1;
    }
  }

  lemma TenTimes(d: int, p: int)
    ensures d * (10 * p) == 10 * (d * p)
  {
  }

  lemma {:induction false} DigitsValueIsPlaceValue(s: string)
    requires AllDigits(s)
    ensures (forall i :: 0 <= i < |s| ==> '0' <= s[i] <= '9') && DigitsValue(s) == PlaceValue(s)
  {
    assert forall i :: 0 <= i < |s| ==> IsDigit(s[i]);
    if s != "" {
      var n := |s| - 1;
      DigitsValueIsPlaceValue(s[..n]);
      PlaceValueOfOneMore(s[..n], s[n]);
      assert s == s[..n] + [s[n]];
    }
  }

  lemma {:induction false} DigitsParse(digits: string)
    requires Digits(digits)
    ensures ParseInt(digits) == ParseInt("+" + digits) == InRange(PlaceValue(digits))
    ensures ParseInt("-" + digits) == InRange(0 - PlaceValue(digits))
  {
    assert AllDigits(digits) && IsDigit(digits[0]);
    DigitsValueIsPlaceValue(digits);
    ParseDigits(digits);
    ParseNegated(digits);
    assert ("+" + digits)[1..] == digits;
  }

  lemma {:induction false} ParsedIsRead(s: string)
    requires ParseInt(s).Some?
    ensures Reads(s, ParseInt(s).value)
  {
    var digits := if s[0] == '-' || s[0] == '+' then s[1..] else s;
    assert AllDigits(digits);
    assert forall i :: 0 <= i < |digits| ==> IsDigit(digits[i]);
    assert s == digits || s == [s[0]] + digits;
    DigitsValueIsPlaceValue(digits);
    assert ReadsAs(s, digits, ParseInt(s).value);
  }

  lemma {:induction false} ReadIsParsed(s: string, digits: string, v: int)
    requires ReadsAs(s, digits, v)
    ensures ParseInt(s) == InRange(v)
  {
    DigitsParse(digits);
  }

  /** For every text: it parses to v exactly when it reads as v, and v fits in 64 bits. */
  lemma {:induction false} ParseIntIff(s: string, v: int)
    ensures ParseInt(s) == Some(v) <==> Reads(s, v) && -9223372036854775808 <= v <= 9223372036854775807
  {
    if Reads(s, v) {
      var digits :| ReadsAs(s, digits, v);
      ReadIsParsed(s, digits, v);
    }
    if ParseInt(s).Some? {
      ParsedIsRead(s);
    }
  }

  /** A decimal without superfluous signs or zeros. */
  predicate CanonicalDigits(s: string) {
    s != "" && AllDigits(s) && (s[0] == '0' ==> |s| == 1)
  }

  predicate Canonical(s: string) {
    CanonicalDigits(s) || (s != "" && s[0] == '-' && CanonicalDigits(s[1..]) && s != "-0")
  }

  lemma {:induction false} DigitsFormatBack(s: string)
    requires CanonicalDigits(s)
    ensures FormatNat(DigitsValue(s)) == s && (DigitsValue(s) == 0 ==> s == "0")
  {
    var n := |s| - 1;
    assert IsDigit(s[n]) && s == s[..n] + [s[n]];
    if n > 0 {
      DigitsFormatBack(s[..n]);
    }
  }

  /** Conversely, canonical text that parses is the formatted number. */
  lemma ParseRoundTrip(s: string)
    requires Canonical(s) && ParseInt(s).Some?
    ensures FormatInt(ParseInt(s).value) == s
  {
    if s[0] == '-' {
      DigitsFormatBack(s[1..]);
      assert s == "-" + s[1..];
    } else {
      assert IsDigit(s[0]);
      DigitsFormatBack(s);
    }
  }

  // ----- expiry -----

  function RetentionWindow(configured: int): (window: int)
    ensures window > 0
    ensures window != configured ==> configured <= 0 && window == 72 * 3600 * SECOND
  {
    if configured > 0 then configured else DEFAULT_RETENTION
  }

  function ExpiryLabel(stamp: Time, window: int): string {
    FormatInt(UnixSecond(stamp + window))
  }

  /** `None` stands for the error of a label that is missing or does not parse. */
  function IsExpired(labels: map<string, string>, now: Time): Option<bool> {
    if EXPIRES_AT !in labels then None
    else
      var at := ParseInt(labels[EXPIRES_AT]);
      if at.None? then None else Some(now >= at.value * SECOND)
  }

  /** The labels carry a readable expiry second. */
  ghost predicate ExpiresAt(labels: map<string, string>, at: int) {
    && "scheduling.purestorage.io/expires-at" in labels
    && Reads(labels["scheduling.purestorage.io/expires-at"], at)
    && -9223372036854775808 <= at <= 9223372036854775807
  }

  /** For every set of labels: expired from the second they carry on, not before, and neither when
      they carry none. */
  lemma {:induction false} ExpiryOfAnyLabels(labels: map<string, string>, now: Time)
    ensures IsExpired(labels, now) == Some(true) <==> exists at :: ExpiresAt(labels, at) && now >= at * SECOND
    ensures IsExpired(labels, now) == Some(false) <==> exists at :: ExpiresAt(labels, at) && now < at * SECOND
  {
    if EXPIRES_AT in labels {
      var parsed := ParseInt(labels[EXPIRES_AT]);
      forall at ensures ExpiresAt(labels, at) <==> parsed == Some(at) {
        ParseIntIff(labels[EXPIRES_AT], at);
      }
      if parsed.Some? {
        assert ExpiresAt(labels, parsed.value);
      }
    }
  }

  /** A label written at `stamp` with retention `window`. */
  predicate StampedFor(labels: map<string, string>, stamp: Time, window: int) {
    EXPIRES_AT in labels && labels[EXPIRES_AT] == ExpiryLabel(stamp, window)
  }

  /** When the expiry second fits in 64 bits the record is expired from that second on, exactly;
      when it does not, the label never parses. */
  lemma ExpiryIsExact(labels: map<string, string>, stamp: Time, window: int, now: Time)
    requires StampedFor(labels, stamp, window)
    ensures IsExpired(labels, now) ==
            if MIN_INT64 <= UnixSecond(stamp + window) <= MAX_INT64 then Some(now >= Trunc(stamp + window)) else None
  {
    FormatRoundTrip(UnixSecond(stamp + window));
  }

  /** In terms of the stamp: never expired up to one second before the end of the window, always
      expired from its end, and never un-expired as time passes. */
  lemma ExpiryBounds(labels: map<string, string>, stamp: Time, window: int, now: Time, later: Time)
    requires StampedFor(labels, stamp, window)
    ensures IsExpired(labels, now) == Some(true) ==> now > stamp + window - SECOND
    ensures MIN_INT64 <= UnixSecond(stamp + window) <= MAX_INT64 && now >= stamp + window ==>
              IsExpired(labels, now) == Some(true)
    ensures now <= later && IsExpired(labels, now) == Some(true) ==> IsExpired(labels, later) == Some(true)
  {
    ExpiryIsExact(labels, stamp, window, now);
    ExpiryIsExact(labels, stamp, window, later);
    TruncBounds(stamp + window);
  }

  /** The one-second slack is not an artefact: a record expires at the start of the second its
      window ends in, which is early exactly when the window does not end on a whole second. */
  lemma ExpiryCanBeEarly(labels: map<string, string>, stamp: Time, window: int)
    requires StampedFor(labels, stamp, window) && MIN_INT64 <= UnixSecond(stamp + window) <= MAX_INT64
    ensures IsExpired(labels, Trunc(stamp + window)) == Some(true)
    ensures IsExpired(labels, Trunc(stamp + window) - 1) == Some(false)
    ensures (exists now :: now < stamp + window && IsExpired(labels, now) == Some(true)) <==> !Whole(stamp + window)
  {
    var end := Trunc(stamp + window);
    TruncBounds(stamp + window);
    ExpiryIsExact(labels, stamp, window, end);
    ExpiryIsExact(labels, stamp, window, end - 1);
    forall now | now < stamp + window && IsExpired(labels, now) == Some(true) ensures end <= now {
      ExpiryIsExact(labels, stamp, window, now);
    }
  }
}
