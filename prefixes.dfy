/**
 * The username prefixes the big-domain export enumerates: zero-padded
 * numbers `f"{i:0{width}d}"` for `i in range(start, 10**width)`, or the
 * single characters of a fixed alphabet, and the wildcard pattern sent to
 * `getUsersInfo` for each.
 */
module Prefixes {
  import opened Common

  function Pow10(n: nat): (r: nat)
    ensures r >= 1
  {
    if n == 0 then 1 else 10 * Pow10(n - 1)
  }

  predicate IsDigit(c: char) {
    '0' <= c <= '9'
  }

  predicate AllDigits(s: string) {
    forall i :: 0 <= i < |s| ==> IsDigit(s[i])
  }

  function DigitChar(d: nat): (c: char)
    requires d < 10
    ensures IsDigit(c) && c as int - '0' as int == d
  {
    (d + '0' as int) as char
  }

  /** The decimal digits of `n`, without leading zeros (`str(n)`). */
  function Digits(n: nat): (s: string)
    ensures 1 <= |s| && AllDigits(s)
  {
    if n < 10 then [DigitChar(n)] else Digits(n / 10) + [DigitChar(n % 10)]
  }

  /** The number a string of decimal digits denotes (`int(s)`). */
  function DigitsValue(s: string): nat
    requires AllDigits(s)
  {
    if s == [] then 0
    else DigitsValue(s[..|s| - 1]) * 10 + (s[|s| - 1] as int - '0' as int)
  }

  function Zeros(k: nat): (s: string)
    ensures |s| == k && AllDigits(s)
  {
    seq(k, _ => '0')
  }

  /** `f"{n:0{width}d}"`: the digits of `n`, padded on the left with zeros to `width`. */
  function ZeroPad(n: nat, width: nat): (s: string)
    ensures AllDigits(s)
    ensures DigitsValue(s) == n
    ensures 1 <= width && n < Pow10(width) ==> |s| == width
  {
    var d := Digits(n);
    var pad := if |d| < width then width - |d| else 0;
    DigitsRoundTrip(n);
    LeadingZeros(pad, d);
    DigitsLength(n, width);
    Zeros(pad) + d
  }

  /** Reading back the digits of `n` gives `n`. */
  lemma {:induction false} DigitsRoundTrip(n: nat)
    ensures DigitsValue(Digits(n)) == n
    decreases n
  {
    if n >= 10 {
      var d := Digits(n / 10);
      DigitsRoundTrip(n / 10);
      assert (d + [DigitChar(n % 10)])[..|d|] == d;
    }
  }

  /** Leading zeros do not change the value. */
  lemma {:induction false} LeadingZeros(k: nat, s: string)
    requires AllDigits(s)
    ensures DigitsValue(Zeros(k) + s) == DigitsValue(s)
    decreases |s|, k
  {
    if s == [] {
      assert Zeros(k) + s == Zeros(k);
      if k > 0 {
        assert Zeros(k)[..k - 1] == Zeros(k - 1);
        LeadingZeros(k - 1, []);
        assert Zeros(k - 1) + [] == Zeros(k - 1);
      }
    } else {
      var init := s[..|s| - 1];
      LeadingZeros(k, init);
      assert (Zeros(k) + s)[..|Zeros(k) + s| - 1] == Zeros(k) + init;
    }
  }

  /** A number below 10^width has at most `width` digits. */
  lemma {:induction false} DigitsLength(n: nat, width: nat)
    ensures 1 <= width && n < Pow10(width) ==> |Digits(n)| <= width
    decreases n
  {
    if n >= 10 && 1 <= width && n < Pow10(width) {
      assert n / 10 < Pow10(width - 1);
      DigitsLength(n / 10, width - 1);
    }
  }

  /**
   * The numeric prefixes: a negative start counts from 0; a start at or
   * beyond 10^width aborts (None); otherwise one prefix per number from the
   * start up to 10^width - 1.
   */
  function NumericPrefixes(start: int, width: nat): (r: Option<seq<string>>)
    ensures var from := if start < 0 then 0 else start;
            r.None? <==> from >= Pow10(width)
    ensures var from := if start < 0 then 0 else start;
            r.Some? ==>
              && |r.value| == Pow10(width) - from
              && (forall k :: 0 <= k < |r.value| ==>
                    AllDigits(r.value[k]) && DigitsValue(r.value[k]) == from + k)
              && (1 <= width ==> forall k :: 0 <= k < |r.value| ==> |r.value[k]| == width)
  {
    var from := if start < 0 then 0 else start;
    if from >= Pow10(width) then None
    else
      var ps := seq(Pow10(width) - from, k requires 0 <= k < Pow10(width) - from => ZeroPad(from + k, width));
      assert forall k :: 0 <= k < |ps| ==> ps[k] == ZeroPad(from + k, width);
      Some(ps)
  }

  /** The prefixes are strictly increasing numbers, so none repeats. */
  lemma NumericPrefixesIncreasing(start: int, width: nat)
    requires NumericPrefixes(start, width).Some?
    ensures var ps := NumericPrefixes(start, width).value;
            forall i, j :: 0 <= i < j < |ps| ==> DigitsValue(ps[i]) < DigitsValue(ps[j])
    ensures NoDuplicates(NumericPrefixes(start, width).value)
  {
    var ps := NumericPrefixes(start, width).value;
    forall i, j | 0 <= i < j < |ps|
      ensures ps[i] != ps[j]
    {
      assert DigitsValue(ps[i]) < DigitsValue(ps[j]);
    }
  }

  /** Width 3 from 998 queries exactly "998" and "999"; from 1000 it aborts. */
  lemma NumericPrefixesNearEnd()
    ensures NumericPrefixes(998, 3) == Some(["998", "999"])
    ensures NumericPrefixes(1000, 3) == None
  {
    assert Pow10(3) == 1000;
    assert Digits(998) == "998" by {
      assert Digits(99) == "99";
    }
    assert Digits(999) == "999" by {
      assert Digits(99) == "99";
    }
    assert Zeros(0) == [];
    assert ZeroPad(998, 3) == "998";
    assert ZeroPad(999, 3) == "999";
    var ps := NumericPrefixes(998, 3).value;
    assert |ps| == 2 && ps[0] == "998" && ps[1] == "999";
    assert ps == ["998", "999"];
  }

  /** The character prefixes: one per character of the alphabet, in order. */
  function CharPrefixes(characters: string): (r: seq<string>)
    ensures |r| == |characters|
    ensures forall i :: 0 <= i < |characters| ==> r[i] == [characters[i]]
    ensures NoDuplicates(characters) <==> NoDuplicates(r)
  {
    var r := seq(|characters|, i requires 0 <= i < |characters| => [characters[i]]);
    assert forall i :: 0 <= i < |r| ==> r[i][0] == characters[i];
    r
  }

  /**
   * The pattern for one prefix: `<digits>*` in numeric mode, `<char>.*`
   * otherwise. It starts with the prefix and ends with the wildcard.
   */
  function Pattern(prefix: string, numeric: bool): (r: string)
    ensures |r| == |prefix| + (if numeric then 1 else 2)
    ensures r[..|prefix|] == prefix && r[|r| - 1] == '*'
    ensures !numeric ==> r[|prefix|] == '.'
  {
    if numeric then prefix + "*" else prefix + ".*"
  }

  /** Distinct prefixes give distinct patterns, so no query is sent twice. */
  lemma PatternsDistinct(prefixes: seq<string>, numeric: bool)
    requires NoDuplicates(prefixes)
    ensures NoDuplicates(seq(|prefixes|, k requires 0 <= k < |prefixes| => Pattern(prefixes[k], numeric)))
  {
  }
}
