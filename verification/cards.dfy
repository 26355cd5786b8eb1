/** Card stagger: the card at position `idx` among `.cards .card` gets the inline
    style `transition-delay: <idx * 90>ms`, so each card starts 90 ms after the
    one before it. */
module Cards {
  import opened Wrappers

  /** Milliseconds between consecutive cards. */
  const StaggerMs := 90

  predicate IsDigit(c: char) {
    '0' <= c <= '9'
  }

  predicate AllDigits(s: string) {
    forall i :: 0 <= i < |s| ==> IsDigit(s[i])
  }

  /** The number a string of decimal digits denotes. */
  function DigitsValue(s: string): nat
    requires AllDigits(s)
  {
    if s == [] then 0
    else DigitsValue(s[..|s| - 1]) * 10 + (s[|s| - 1] as int - '0' as int)
  }

  /** JavaScript's rendering of a non-negative integer below 10^21 inside a
      template literal: its decimal digits, with no leading zero. (From 10^21 up
      JavaScript switches to exponent form; no card index reaches that.) */
  function Decimal(n: nat): (s: string)
    ensures s != [] && AllDigits(s)
    ensures |s| > 1 ==> s[0] != '0'
  {
    var last := ['0' + (n % 10) as char];
    if n < 10 then last else Decimal(n / 10) + last
  }

  /** The style value set on the card at position `idx`. */
  function TransitionDelay(idx: nat): string {
    Decimal(idx * StaggerMs) + "ms"
  }

  /** Reads a CSS time of the form `<digits>ms` back as a number of milliseconds. */
  function ParseMs(css: string): Option<nat> {
    if |css| >= 3 && css[|css| - 2..] == "ms" && AllDigits(css[..|css| - 2]) then
      Some(DigitsValue(css[..|css| - 2]))
    else
      None
  }

  /** The style values of `count` cards in document order. */
  function Stagger(count: nat): (css: seq<string>)
    ensures |css| == count
    ensures forall idx :: 0 <= idx < count ==> ParseMs(css[idx]) == Some(idx * StaggerMs)
  {
    EveryDelayReadsBack(count);
    seq(count, idx requires 0 <= idx => TransitionDelay(idx))
  }

  lemma EveryDelayReadsBack(count: nat)
    ensures forall idx: nat :: idx < count ==> ParseMs(TransitionDelay(idx)) == Some(idx * StaggerMs)
  {
    forall idx: nat | idx < count ensures ParseMs(TransitionDelay(idx)) == Some(idx * StaggerMs) {
      TransitionDelayReadsBack(idx);
    }
  }

  /** Decimal rendering and reading are inverse. */
  lemma {:induction false} DecimalRoundTrip(n: nat)
    ensures DigitsValue(Decimal(n)) == n
    decreases n
  {
    var s := Decimal(n);
    if n >= 10 {
      DecimalRoundTrip(n / 10);
      assert s[..|s| - 1] == Decimal(n / 10);
    }
  }

  /** Every card's delay reads back as its position times 90 ms. */
  lemma TransitionDelayReadsBack(idx: nat)
    ensures ParseMs(TransitionDelay(idx)) == Some(idx * StaggerMs)
  {
    var digits := Decimal(idx * StaggerMs);
    var css := TransitionDelay(idx);
    assert css[..|css| - 2] == digits;
    assert css[|css| - 2..] == "ms";
    DecimalRoundTrip(idx * StaggerMs);
  }

  /** A card later in the list starts strictly later. */
  lemma StaggerStrictlyIncreasing(count: nat, i: nat, j: nat)
    requires i < j < count
    ensures ParseMs(Stagger(count)[i]).value < ParseMs(Stagger(count)[j]).value
  {
  }
}
