/**
 * The next-motor-ID suggestion shown when the add form opens: the largest
 * trailing number among the existing ids, plus one, zero-padded to three
 * digits after the prefix `MOTOR-`.
 */
module MotorIds {

  predicate IsDigit(c: char) {
    '0' <= c <= '9'
  }

  predicate AllDigits(s: string) {
    forall i | 0 <= i < |s| :: IsDigit(s[i])
  }

  function DigitValue(c: char): nat
    requires IsDigit(c)
  {
    c as int - '0' as int
  }

  function DigitChar(d: nat): (c: char)
    requires d < 10
    ensures IsDigit(c) && DigitValue(c) == d
  {
    ('0' as int + d) as char
  }

  /** The run of digits at the end of `s`: what `/(\d+)$/` captures, or empty when it does not match. */
  function TrailingDigits(s: string): (r: string)
    ensures |r| <= |s| && r == s[|s| - |r|..]
    ensures AllDigits(r)
    ensures |r| < |s| ==> !IsDigit(s[|s| - |r| - 1])
  {
    if s == [] || !IsDigit(s[|s| - 1]) then []
    else
      var front := TrailingDigits(s[..|s| - 1]);
      assert s[..|s| - 1][|s| - 1 - |front|..] + [s[|s| - 1]] == s[|s| - 1 - |front|..];
      front + [s[|s| - 1]]
  }

  /** 10 to the power `k`. */
  function Pow10(k: nat): (p: nat)
    ensures p >= 1
  {
    if k == 0 then 1 else 10 * Pow10(k - 1)
  }

  /** The base-10 value of a digit string (`parseInt(ds, 10)`): below 10 to its length. */
  function DigitsValue(ds: string): (v: nat)
    requires AllDigits(ds)
    ensures v < Pow10(|ds|)
  {
    if ds == [] then 0 else DigitsValue(ds[..|ds| - 1]) * 10 + DigitValue(ds[|ds| - 1])
  }

  /**
   * What one id contributes: its trailing number, or 0 when it has none. The
   * number is below 10 to the length of the trailing digit run.
   */
  function TrailingNumber(id: string): (n: nat)
    ensures id == [] || !IsDigit(id[|id| - 1]) ==> n == 0
    ensures n < Pow10(|TrailingDigits(id)|)
  {
    var ds := TrailingDigits(id);
    if ds == [] then 0 else DigitsValue(ds)
  }

  /** `Math.max` over the list, or 0 for an empty list. */
  function MaxOf(ns: seq<nat>): (m: nat)
    ensures forall i | 0 <= i < |ns| :: ns[i] <= m
    ensures ns != [] ==> m in ns
    ensures ns == [] ==> m == 0
  {
    if ns == [] then 0
    else
      var rest := MaxOf(ns[1..]);
      assert forall i | 1 <= i < |ns| :: ns[i] == ns[1..][i - 1];
      if ns[0] >= rest then ns[0] else rest
  }

  function TrailingNumbers(ids: seq<string>): (ns: seq<nat>)
    ensures |ns| == |ids|
    ensures forall i | 0 <= i < |ids| :: ns[i] == TrailingNumber(ids[i])
  {
    seq(|ids|, i requires 0 <= i < |ids| => TrailingNumber(ids[i]))
  }

  /** The number to suggest: above every existing trailing number, and at least 1. */
  function NextNumber(ids: seq<string>): (n: nat)
    ensures n >= 1
    ensures forall i | 0 <= i < |ids| :: TrailingNumber(ids[i]) < n
    ensures ids == [] ==> n == 1
  {
    MaxOf(TrailingNumbers(ids)) + 1
  }

  /** `String(n)` for a natural number: decimal digits without leading zeros. */
  function Decimal(n: nat): (s: string)
    ensures s != [] && AllDigits(s)
    ensures |s| > 1 ==> s[0] != '0'
  {
    if n < 10 then [DigitChar(n)]
    else
      var front := Decimal(n / 10);
      assert n / 10 != 0;
      front + [DigitChar(n % 10)]
  }

  function Repeat(c: char, k: nat): (r: string)
    ensures |r| == k && forall i | 0 <= i < k :: r[i] == c
  {
    if k == 0 then [] else Repeat(c, k - 1) + [c]
  }

  /** `s.padStart(width, fill)`: fill on the left up to `width`, never cut. */
  function PadStart(s: string, width: nat, fill: char): (r: string)
    ensures |r| == if |s| >= width then |s| else width
    ensures r[|r| - |s|..] == s
    ensures forall i | 0 <= i < |r| - |s| :: r[i] == fill
  {
    if |s| >= width then s else Repeat(fill, width - |s|) + s
  }

  const IdPrefix: string := "MOTOR-"
  const IdWidth: nat := 3

  /**
   * The id the add form is pre-filled with: `MOTOR-` followed by at least
   * three digits.
   */
  function SuggestId(ids: seq<string>): (r: string)
    ensures |r| >= |IdPrefix| + IdWidth
    ensures r[..|IdPrefix|] == IdPrefix
    ensures AllDigits(r[|IdPrefix|..])
  {
    IdPrefix + PadStart(Decimal(NextNumber(ids)), IdWidth, '0')
  }

  /** `String(n)` read back with base 10 gives `n`. */
  lemma {:induction false} DecimalValue(n: nat)
    ensures DigitsValue(Decimal(n)) == n
    decreases n
  {
    if n >= 10 {
      DecimalValue(n / 10);
      var s := Decimal(n);
      assert s[..|s| - 1] == Decimal(n / 10);
    }
  }

  /** Leading zeros do not change a digit string's value. */
  lemma {:induction false} LeadingZerosValue(k: nat, ds: string)
    requires AllDigits(ds)
    ensures AllDigits(Repeat('0', k) + ds)
    ensures DigitsValue(Repeat('0', k) + ds) == DigitsValue(ds)
    decreases |ds| + k
  {
    var s := Repeat('0', k) + ds;
    if ds == [] {
      assert s == Repeat('0', k);
      if k > 0 {
        assert s[..|s| - 1] == Repeat('0', k - 1) + [];
        LeadingZerosValue(k - 1, []);
      }
    } else {
      var front := ds[..|ds| - 1];
      assert s[..|s| - 1] == Repeat('0', k) + front;
      assert s[|s| - 1] == ds[|ds| - 1];
      LeadingZerosValue(k, front);
      assert DigitsValue(s) == DigitsValue(Repeat('0', k) + front) * 10 + DigitValue(ds[|ds| - 1]);
    }
  }

  /** Behind a prefix that does not end in a digit, the trailing run is exactly the digits appended. */
  lemma {:induction false} TrailingDigitsAfterPrefix(p: string, ds: string)
    requires p == [] || !IsDigit(p[|p| - 1])
    requires AllDigits(ds)
    ensures TrailingDigits(p + ds) == ds
    decreases |ds|
  {
    if ds == [] {
      assert p + ds == p;
    } else {
      var s := p + ds;
      assert s[..|s| - 1] == p + ds[..|ds| - 1];
      TrailingDigitsAfterPrefix(p, ds[..|ds| - 1]);
    }
  }

  /** The suggested id's own trailing number is the next number. */
  lemma SuggestedNumber(ids: seq<string>)
    ensures TrailingNumber(SuggestId(ids)) == NextNumber(ids)
  {
    var n := NextNumber(ids);
    var digits := Decimal(n);
    var padded := PadStart(digits, IdWidth, '0');
    var k := |padded| - |digits|;
    assert padded == Repeat('0', k) + digits;
    LeadingZerosValue(k, digits);
    DecimalValue(n);
    TrailingDigitsAfterPrefix(IdPrefix, padded);
  }

  /** The suggestion never repeats an existing id. */
  lemma SuggestionIsFresh(ids: seq<string>)
    ensures forall i | 0 <= i < |ids| :: SuggestId(ids) != ids[i]
  {
    SuggestedNumber(ids);
  }

  /** An empty registry gives `MOTOR-001`. */
  lemma SuggestForEmpty()
    ensures SuggestId([]) == "MOTOR-001"
  {
    assert Decimal(1) == "1";
    assert Repeat('0', 2) == "00";
  }

  /** Numbers of four digits or more are printed in full. */
  lemma SuggestAfter999()
    ensures SuggestId(["MOTOR-999"]) == "MOTOR-1000"
  {
    var ids := ["MOTOR-999"];
    NextAfter999();
    OneThousand();
    calc {
      SuggestId(ids);
      IdPrefix + PadStart(Decimal(1000), IdWidth, '0');
      IdPrefix + "1000";
      "MOTOR-1000";
    }
  }

  lemma NextAfter999()
    ensures NextNumber(["MOTOR-999"]) == 1000
  {
    var id := "MOTOR-999";
    assert TrailingNumber(id) == 999 by {
      TrailingDigitsAfterPrefix(IdPrefix, "999");
      assert IdPrefix + "999" == id;
      NineNineNine();
    }
    NextOfOne(id);
  }

  /** With a single id, the next number follows its trailing number. */
  lemma NextOfOne(id: string)
    ensures NextNumber([id]) == TrailingNumber(id) + 1
  {
    var ns := TrailingNumbers([id]);
    assert MaxOf(ns) in ns;
  }

  lemma NineNineNine()
    ensures DigitsValue("999") == 999
  {
    assert "999"[..2] == "99" && "99"[..1] == "9" && "9"[..0] == "";
  }

  lemma OneThousand()
    ensures Decimal(1000) == "1000"
    ensures PadStart(Decimal(1000), IdWidth, '0') == "1000"
  {
    assert Decimal(1) == "1";
    assert Decimal(10) == "10";
    assert Decimal(100) == "100";
  }
}
