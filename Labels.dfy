/**
 * The texts derived for display: the result counter of `updateCounter`
 * (static/script.js lines 161-167) and the status badge of each row
 * (lines 135-138).
 */
module Labels {
  import opened Wrappers
  import opened JsString

  /** `${count} active opportunit${count === 1 ? 'y' : 'ies'} found`. */
  function CounterText(count: nat): (text: string)
    ensures count == 1 ==> text == "1 active opportunity found"
    ensures count != 1 ==> text == NatToString(count) + " active opportunities found"
  {
    NatToString(count) + " active opportunit" + (if count == 1 then "y" else "ies") + " found"
  }

  /** The length of the run of decimal digits that starts `s`. */
  function DigitRun(s: string): (n: nat)
    ensures n <= |s| && AllDigits(s[..n])
    ensures n < |s| ==> !IsDigit(s[n])
  {
    if s != [] && IsDigit(s[0]) then
      var n := 1 + DigitRun(s[1..]);
      assert s[..n] == [s[0]] + s[1..][..n - 1];
      n
    else
      0
  }

  lemma {:induction false} DigitRunOfNumberThenText(digits: string, rest: string)
    requires AllDigits(digits)
    requires rest != [] && !IsDigit(rest[0])
    ensures DigitRun(digits + rest) == |digits|
    decreases |digits|
  {
    if digits != [] {
      assert (digits + rest)[1..] == digits[1..] + rest;
      DigitRunOfNumberThenText(digits[1..], rest);
    } else {
      assert digits + rest == rest;
    }
  }

  /** The counter's leading digits read back as the count it reports. */
  lemma CounterTextReadsBack(count: nat)
    ensures var text := CounterText(count);
            ParseNat(text[..DigitRun(text)]) == count
  {
    var digits := NatToString(count);
    var rest := " active opportunit" + (if count == 1 then "y" else "ies") + " found";
    assert CounterText(count) == digits + rest;
    DigitRunOfNumberThenText(digits, rest);
    assert (digits + rest)[..|digits|] == digits;
    ParseNatToString(count);
  }

  /** Different counts give different counter texts. */
  lemma CounterTextInjective(a: nat, b: nat)
    requires CounterText(a) == CounterText(b)
    ensures a == b
  {
    CounterTextReadsBack(a);
    CounterTextReadsBack(b);
  }

  /**
   * `program.status?.toUpperCase() || 'UNKNOWN'`: the upper-cased status, or
   * "UNKNOWN" when the status is missing or empty.
   */
  function StatusText(status: Option<string>): (text: string)
    ensures text != []
    ensures forall i :: 0 <= i < |text| ==> !IsAsciiLower(text[i])
    ensures status.None? || status.value == [] ==> text == "UNKNOWN"
    ensures status.Some? && status.value != [] ==> text == ToUpper(status.value)
  {
    match status
    case None => "UNKNOWN"
    case Some(s) => var upper := ToUpper(s); if upper == [] then "UNKNOWN" else upper
  }

  /** The badge's class: `status-active` for the text "ACTIVE", `status-closed` for any other. */
  function BadgeClass(text: string): string
  {
    if text == "ACTIVE" then "status-active" else "status-closed"
  }

  /** A badge is shown active exactly when the status is "active" in some letter case. */
  lemma ActiveBadge(status: Option<string>)
    ensures BadgeClass(StatusText(status)) == "status-active" <==>
            status.Some? && ToUpper(status.value) == "ACTIVE"
  {
  }
}
