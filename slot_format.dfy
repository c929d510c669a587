/** The `"HH:MM"` strings of the time-slot picker: how a slot's minute of the
    day is rendered (`getHours().toString().padStart(2, "0")` and the same for
    minutes) and how `handleNext` reads it back (`split(":")` then `parseInt`). */
module SlotFormat {
  import opened JsValues

  predicate IsDigit(c: char)
  {
    '0' <= c <= '9'
  }

  function DigitChar(d: nat): (c: char)
    requires d < 10
    ensures IsDigit(c) && DigitValue(c) == d
  {
    (48 + d) as char
  }

  function DigitValue(c: char): (d: nat)
    requires IsDigit(c)
    ensures d < 10
  {
    c as int - '0' as int
  }

  /** `n.toString()` for a non-negative integer. */
  function NatToString(n: nat): string
    decreases n
  {
    if n < 10 then [DigitChar(n)] else NatToString(n / 10) + [DigitChar(n % 10)]
  }

  /** `s.padStart(2, "0")`. */
  function PadStart2(s: string): string
  {
    if |s| >= 2 then s else seq(2 - |s|, _ => '0') + s
  }

  /** `n.toString().padStart(2, "0")`. */
  function Pad2(n: nat): string
  {
    PadStart2(NatToString(n))
  }

  /** A number below one hundred is rendered as exactly its two decimal digits. */
  lemma Pad2Digits(n: nat)
    requires n < 100
    ensures Pad2(n) == [DigitChar(n / 10), DigitChar(n % 10)]
  {
    if n >= 10 {
      assert NatToString(n / 10) == [DigitChar(n / 10)];
    }
  }

  /** The slot label of minute `t` counted from midnight of the selected day.
      `Date` normalises hours past 23 into the next day and negative minutes
      into the previous one: Euclidean division and remainder do the same. */
  function FormatSlot(t: int): string
  {
    Pad2((t / 60) % 24) + ":" + Pad2(t % 60)
  }

  /** Every label is two zero-padded hour digits, a colon and two zero-padded
      minute digits, and they spell the hour of the day and the minute of the
      hour. */
  lemma FormatSlotShape(t: int)
    ensures var h, m := (t / 60) % 24, t % 60;
      FormatSlot(t) == [DigitChar(h / 10), DigitChar(h % 10), ':', DigitChar(m / 10), DigitChar(m % 10)]
  {
    Pad2Digits((t / 60) % 24);
    Pad2Digits(t % 60);
  }

  /** `s.split(sep)` for a one-character separator: the pieces between the
      separators, in order, empty pieces included. */
  function Split(s: string, sep: char): (parts: seq<string>)
    ensures |parts| >= 1
    decreases |s|
  {
    if s == [] then [""]
    else if s[0] == sep then [""] + Split(s[1..], sep)
    else
      var rest := Split(s[1..], sep);
      [[s[0]] + rest[0]] + rest[1..]
  }

  /** Splitting at the only separator gives the two sides. */
  lemma {:induction false} SplitAtSeparator(a: string, b: string, sep: char)
    requires sep !in a && sep !in b
    ensures Split(a + [sep] + b, sep) == [a, b]
    decreases |a|
  {
    if a == [] {
      assert a + [sep] + b == [sep] + b;
      assert ([sep] + b)[1..] == b;
      SplitNone(b, sep);
    } else {
      assert (a + [sep] + b)[1..] == a[1..] + [sep] + b;
      SplitAtSeparator(a[1..], b, sep);
      assert [a[0]] + a[1..] == a;
    }
  }

  /** A string without the separator splits into itself. */
  lemma {:induction false} SplitNone(s: string, sep: char)
    requires sep !in s
    ensures Split(s, sep) == [s]
    decreases |s|
  {
    if s != [] {
      SplitNone(s[1..], sep);
      assert [s[0]] + s[1..] == s;
    }
  }

  /** The leading run of decimal digits. */
  function DigitPrefix(s: string): (p: string)
    ensures |p| <= |s| && p == s[..|p|]
    ensures forall i :: 0 <= i < |p| ==> IsDigit(p[i])
  {
    if s != [] && IsDigit(s[0]) then [s[0]] + DigitPrefix(s[1..]) else []
  }

  /** The value of a string of decimal digits. */
  function DigitsValue(ds: string): nat
    requires forall i :: 0 <= i < |ds| ==> IsDigit(ds[i])
  {
    if ds == [] then 0 else DigitsValue(ds[..|ds| - 1]) * 10 + DigitValue(ds[|ds| - 1])
  }

  /** `parseInt(s)` on a string that starts with its digits; `None` stands for
      NaN, the result when there is no leading digit. */
  function ParseInt(s: string): Option<int>
  {
    var p := DigitPrefix(s);
    if p == [] then None else Some(DigitsValue(p))
  }

  /** JavaScript's `parseInt(undefined)` is NaN. */
  function ParsePart(parts: seq<string>, k: nat): Option<int>
  {
    if k < |parts| then ParseInt(parts[k]) else None
  }

  /** `const [hours, minutes] = slot.split(":")` followed by `parseInt` of each. */
  function ParseSlot(slot: string): (Option<int>, Option<int>)
  {
    var parts := Split(slot, ':');
    (ParsePart(parts, 0), ParsePart(parts, 1))
  }

  /** Reading a two-digit rendering back gives the number rendered. */
  lemma ParsePad2(n: nat)
    requires n < 100
    ensures ParseInt(Pad2(n)) == Some(n)
  {
    Pad2Digits(n);
    var s := Pad2(n);
    assert DigitPrefix(s[1..]) == s[1..] by {
      assert DigitPrefix(s[1..][1..]) == [];
    }
    assert DigitPrefix(s) == s;
    assert s[..1] == [DigitChar(n / 10)];
    assert DigitsValue(s[..1]) == n / 10 by {
      assert s[..1][..0] == [];
    }
  }

  /** Round trip: parsing a slot label recovers the hour of the day and the
      minute of the hour it was rendered from. */
  lemma ParseFormatSlot(t: int)
    ensures ParseSlot(FormatSlot(t)) == (Some((t / 60) % 24), Some(t % 60))
  {
    var h, m := (t / 60) % 24, t % 60;
    Pad2Digits(h);
    Pad2Digits(m);
    assert ':' !in Pad2(h) && ':' !in Pad2(m);
    SplitAtSeparator(Pad2(h), Pad2(m), ':');
    ParsePad2(h);
    ParsePad2(m);
  }

  /** Within one day, different minutes get different labels. */
  lemma FormatSlotInjective(t1: int, t2: int)
    requires 0 <= t1 < 24 * 60 && 0 <= t2 < 24 * 60
    requires FormatSlot(t1) == FormatSlot(t2)
    ensures t1 == t2
  {
    ParseFormatSlot(t1);
    ParseFormatSlot(t2);
    MinuteOfDay(t1);
    MinuteOfDay(t2);
  }

  /** A minute of the day is determined by its hour and its minute of the hour. */
  lemma MinuteOfDay(t: int)
    requires 0 <= t < 24 * 60
    ensures t == ((t / 60) % 24) * 60 + t % 60
  {
    assert t / 60 < 24;
  }
}
