/**
 * Text helpers shared by the formatters: Guava's Joiner and Strings.repeat, and the
 * decimal rendering Java uses for int and long values.
 */
module Text {

  /** Joiner.on(sep).join(parts): the parts in order, with sep between consecutive ones. */
  function JoinWith(parts: seq<string>, sep: string): string
    decreases |parts|
  {
    if |parts| == 0 then ""
    else if |parts| == 1 then parts[0]
    else JoinWith(parts[..|parts| - 1], sep) + sep + parts[|parts| - 1]
  }

  /** Total length of a list of texts. */
  function TotalLength(parts: seq<string>): nat
    decreases |parts|
  {
    if |parts| == 0 then 0 else TotalLength(parts[..|parts| - 1]) + |parts[|parts| - 1]|
  }

  /** The separator occurs exactly |parts| - 1 times: the joined length counts it that often. */
  lemma {:induction false} JoinWithLength(parts: seq<string>, sep: string)
    requires |parts| > 0
    ensures |JoinWith(parts, sep)| == TotalLength(parts) + (|parts| - 1) * |sep|
    decreases |parts|
  {
    if |parts| > 1 {
      var n, init := |parts|, parts[..|parts| - 1];
      JoinWithLength(init, sep);
      assert |JoinWith(init, sep)| == TotalLength(init) + (n - 2) * |sep|;
      assert (n - 1) * |sep| == (n - 2) * |sep| + |sep|;
    }
  }

  /** Joining one more part appends the separator and that part. */
  lemma JoinWithSnoc(parts: seq<string>, p: string, sep: string)
    ensures JoinWith(parts + [p], sep) == if parts == [] then p else JoinWith(parts, sep) + sep + p
  {
    assert (parts + [p])[..|parts|] == parts;
  }

  /** Joining a part in front of a non-empty list puts the separator after it. */
  lemma {:induction false} JoinWithCons(p: string, parts: seq<string>, sep: string)
    requires parts != []
    ensures JoinWith([p] + parts, sep) == p + sep + JoinWith(parts, sep)
    decreases |parts|
  {
    if |parts| == 1 {
      assert [p] + parts == [p, parts[0]];
    } else {
      var init := parts[..|parts| - 1];
      JoinWithCons(p, init, sep);
      assert ([p] + parts)[..|parts|] == [p] + init;
      assert ([p] + parts)[|parts|] == parts[|parts| - 1];
    }
  }

  /** Concatenation regrouped; stated on its own so callers need not unfold their operands. */
  lemma AppendAssoc<T>(a: seq<T>, b: seq<T>, c: seq<T>)
    ensures a + (b + c) == (a + b) + c
  {
  }

  /** Strings.repeat(s, n): n copies of s. */
  function Repeat(s: string, n: nat): string
    decreases n
  {
    if n == 0 then "" else Repeat(s, n - 1) + s
  }

  lemma {:induction false} RepeatLength(s: string, n: nat)
    ensures |Repeat(s, n)| == n * |s|
    decreases n
  {
    if n > 0 {
      RepeatLength(s, n - 1);
    }
  }

  /** Every character of a repetition of spaces is a space. */
  lemma {:induction false} RepeatSpaces(s: string, n: nat)
    requires forall k :: 0 <= k < |s| ==> s[k] == ' '
    ensures forall k :: 0 <= k < |Repeat(s, n)| ==> Repeat(s, n)[k] == ' '
    decreases n
  {
    if n > 0 {
      RepeatSpaces(s, n - 1);
    }
  }

  predicate IsDigit(c: char) {
    '0' <= c <= '9'
  }

  /** The decimal digits of n, without leading zeros (Long.toString for a non-negative value). */
  function NatText(n: nat): (r: string)
    ensures |r| > 0
    ensures forall k :: 0 <= k < |r| ==> IsDigit(r[k])
    ensures n < 10 <==> |r| == 1
    decreases n
  {
    var d := ['0', '1', '2', '3', '4', '5', '6', '7', '8', '9'][n % 10];
    if n < 10 then [d] else NatText(n / 10) + [d]
  }

  /** The value of the decimal digit c. */
  function DigitValue(c: char): (v: nat)
    requires IsDigit(c)
    ensures v < 10
  {
    (c as int) - ('0' as int)
  }

  /** The number a string of decimal digits spells, most significant digit first. */
  function DecimalValue(s: string): nat
    requires forall k :: 0 <= k < |s| ==> IsDigit(s[k])
    decreases |s|
  {
    if s == [] then 0 else DecimalValue(s[..|s| - 1]) * 10 + DigitValue(s[|s| - 1])
  }

  /** The digits NatText prints spell n, and only zero itself starts with the digit 0. */
  lemma {:induction false} NatTextValue(n: nat)
    ensures DecimalValue(NatText(n)) == n
    ensures NatText(n)[0] == '0' <==> n == 0
    decreases n
  {
    var r := NatText(n);
    var d := ['0', '1', '2', '3', '4', '5', '6', '7', '8', '9'][n % 10];
    assert DigitValue(d) == n % 10;
    if n >= 10 {
      NatTextValue(n / 10);
      assert r == NatText(n / 10) + [d];
      assert r[..|r| - 1] == NatText(n / 10);
    }
  }

  /** NatText is the only digit string without a leading zero that spells its value. */
  lemma {:induction false} NatTextUnique(s: string)
    requires |s| > 0 && forall k :: 0 <= k < |s| ==> IsDigit(s[k])
    requires s[0] == '0' ==> |s| == 1
    ensures s == NatText(DecimalValue(s))
    decreases |s|
  {
    var n, init, last := DecimalValue(s), s[..|s| - 1], s[|s| - 1];
    assert ['0', '1', '2', '3', '4', '5', '6', '7', '8', '9'][DigitValue(last)] == last;
    if |s| > 1 {
      NatTextUnique(init);
      NatTextValue(DecimalValue(init));
      assert init[0] == s[0];
      assert DecimalValue(init) > 0;
      assert n / 10 == DecimalValue(init) && n % 10 == DigitValue(last);
      assert s == init + [last];
    }
  }

  /** Long.toString / Integer.toString: a minus sign for negative values, then the digits. */
  function IntText(i: int): (r: string)
    ensures |r| > 0
    ensures r[0] == '-' <==> i < 0
    ensures i < 0 ==> r == "-" + NatText(-i)
    ensures i >= 0 ==> r == NatText(i)
    ensures var digits := if i < 0 then r[1..] else r;
      |digits| > 0 && (forall k :: 0 <= k < |digits| ==> IsDigit(digits[k]))
      && DecimalValue(digits) == (if i < 0 then -i else i)
      && (digits[0] == '0' ==> |digits| == 1)
  {
    if i < 0 then
      NatTextValue(-i);
      assert ("-" + NatText(-i))[1..] == NatText(-i);
      "-" + NatText(-i)
    else
      NatTextValue(i);
      NatText(i)
  }
}
