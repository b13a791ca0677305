/**
 The keypad's digit buffer: the raw digits the user has typed, how each key
 changes them, the number they spell, and the grouped text the display shows.
 */
module Keypad {

  /** The thousands separator inserted into the displayed text. */
  const GroupSeparator: char := '.'

  predicate IsDigit(c: char)
  {
    '0' <= c <= '9'
  }

  predicate AllDigits(s: string)
  {
    forall i :: 0 <= i < |s| ==> IsDigit(s[i])
  }

  /** A buffer as the keypad keeps it: digits only, never empty, no leading zero except "0" itself. */
  predicate Canonical(b: string)
  {
    |b| > 0 && AllDigits(b) && (b[0] == '0' ==> b == "0")
  }

  function DigitValue(c: char): (v: nat)
    requires IsDigit(c)
    ensures v < 10
  {
    c as int - '0' as int
  }

  function DigitChar(v: nat): (c: char)
    requires v < 10
    ensures IsDigit(c) && DigitValue(c) == v
  {
    ('0' as int + v) as char
  }

  /** The number a digit string spells in decimal. */
  function Value(b: string): nat
    requires AllDigits(b)
  {
    if b == [] then 0 else 10 * Value(b[..|b| - 1]) + DigitValue(b[|b| - 1])
  }

  /** The decimal spelling of `n`, the inverse of `Value` on canonical buffers. */
  function Spell(n: nat): (b: string)
    ensures Canonical(b) && Value(b) == n
  {
    if n < 10 then [DigitChar(n)]
    else
      var prefix := Spell(n / 10);
      var b := prefix + [DigitChar(n % 10)];
      assert b[..|b| - 1] == prefix;
      b
  }

  /** A canonical buffer is the spelling of its own value. */
  lemma {:induction false} SpellValue(b: string)
    requires Canonical(b)
    ensures Spell(Value(b)) == b
  {
    var n := Value(b);
    if |b| == 1 {
      assert DigitChar(DigitValue(b[0])) == b[0];
    } else {
      var prefix := b[..|b| - 1];
      assert prefix[0] == b[0] != '0';
      assert Value(prefix) >= 1 by {
        if Value(prefix) == 0 { ZeroValue(prefix); }
      }
      SpellValue(prefix);
      assert n / 10 == Value(prefix) && n % 10 == DigitValue(b[|b| - 1]);
      assert DigitChar(DigitValue(b[|b| - 1])) == b[|b| - 1];
    }
  }

  /** Only strings of zeros spell 0. */
  lemma {:induction false} ZeroValue(b: string)
    requires AllDigits(b) && Value(b) == 0
    ensures forall i :: 0 <= i < |b| ==> b[i] == '0'
  {
    if b != [] {
      var prefix := b[..|b| - 1];
      ZeroValue(prefix);
      assert forall i :: 0 <= i < |b| - 1 ==> b[i] == prefix[i];
    }
  }

  /** The buffer after a digit key: the digit replaces a lone "0", otherwise it is appended. */
  function AfterDigit(b: string, d: char): (r: string)
    ensures |r| > 0 && r[|r| - 1] == d
    ensures r[..|r| - 1] == if b == "0" then [] else b
  {
    if b == "0" then [d] else b + [d]
  }

  /** The buffer after backspace: the last digit goes, and an emptied buffer becomes "0". */
  function AfterBackspace(b: string): (r: string)
    ensures |b| > 1 ==> b == r + [b[|b| - 1]]
    ensures |b| <= 1 ==> r == "0"
  {
    if |b| <= 1 then "0" else b[..|b| - 1]
  }

  /** A digit key keeps the buffer canonical and shifts the digit in at the least-significant end. */
  lemma DigitShiftsIn(b: string, d: char)
    requires Canonical(b) && IsDigit(d)
    ensures Canonical(AfterDigit(b, d))
    ensures Value(AfterDigit(b, d)) == 10 * Value(b) + DigitValue(d)
  {
  }

  /** Backspace keeps the buffer canonical and drops the least-significant digit. */
  lemma BackspaceShiftsOut(b: string)
    requires Canonical(b)
    ensures Canonical(AfterBackspace(b))
    ensures Value(AfterBackspace(b)) == Value(b) / 10
  {
  }

  /** Backspace undoes a digit key exactly, even when the digit replaced the initial "0". */
  lemma BackspaceUndoesDigit(b: string, d: char)
    requires Canonical(b) && IsDigit(d)
    ensures AfterBackspace(AfterDigit(b, d)) == b
  {
  }

  /**
   The displayed text: the separator every three digits, counted from the right.
   A buffer of n > 0 digits gains (n - 1) / 3 separators; DisplayWellGrouped and
   WellGroupedIsDisplay characterise the text completely.
   */
  function Display(b: string): (s: string)
    ensures |b| > 0 ==> |s| == |b| + (|b| - 1) / 3
    decreases |b|
  {
    if |b| <= 3 then b
    else Display(b[..|b| - 3]) + [GroupSeparator] + b[|b| - 3..]
  }

  /** The digits of a displayed text: every separator removed. */
  function Strip(s: string): string
  {
    if s == [] then []
    else Strip(s[..|s| - 1]) + (if s[|s| - 1] == GroupSeparator then [] else [s[|s| - 1]])
  }

  /**
   A correctly grouped text, stated by position: a separator stands exactly at
   every fourth place counted from the end, every other character is a digit,
   and the text neither is empty nor starts with a separator.
   */
  ghost predicate WellGrouped(s: string)
  {
    |s| > 0 && s[0] != GroupSeparator &&
    forall i :: 0 <= i < |s| ==>
      (s[i] == GroupSeparator <==> (|s| - i) % 4 == 0) &&
      (s[i] != GroupSeparator ==> IsDigit(s[i]))
  }

  lemma {:induction false} StripAppend(a: string, b: string)
    ensures Strip(a + b) == Strip(a) + Strip(b)
    decreases |b|
  {
    if b == [] {
      assert a + b == a;
    } else {
      assert (a + b)[..|a + b| - 1] == a + b[..|b| - 1];
      StripAppend(a, b[..|b| - 1]);
    }
  }

  /** Text without separators is its own digits. */
  lemma {:induction false} StripNoSeparator(s: string)
    requires forall i :: 0 <= i < |s| ==> s[i] != GroupSeparator
    ensures Strip(s) == s
  {
    if s != [] {
      StripNoSeparator(s[..|s| - 1]);
    }
  }

  /** Removing the separators from the display gives back the buffer. */
  lemma {:induction false} StripDisplay(b: string)
    requires AllDigits(b)
    ensures Strip(Display(b)) == b
    decreases |b|
  {
    if |b| <= 3 {
      StripNoSeparator(b);
    } else {
      var head, tail := b[..|b| - 3], b[|b| - 3..];
      StripDisplay(head);
      StripJoin(Display(head), tail);
      assert head + tail == b;
    }
  }

  /** A grouped text, a separator and three more digits make a grouped text. */
  lemma GroupedJoin(p: string, tail: string)
    requires WellGrouped(p) && |tail| == 3 && AllDigits(tail)
    ensures WellGrouped(p + [GroupSeparator] + tail)
  {
    var s := p + [GroupSeparator] + tail;
    forall i | 0 <= i < |s|
      ensures (s[i] == GroupSeparator <==> (|s| - i) % 4 == 0)
      ensures (s[i] != GroupSeparator ==> IsDigit(s[i]))
    {
      if i < |p| {
        assert s[i] == p[i];
        assert (|s| - i) % 4 == (|p| - i) % 4 by {
          assert |s| - i == (|p| - i) + 4;
        }
      } else if i > |p| {
        assert s[i] == tail[i - |p| - 1];
      }
    }
  }

  /** A grouped text longer than four splits into a grouped text, a separator and three digits. */
  lemma GroupedSplit(s: string)
    requires WellGrouped(s) && |s| > 4
    ensures s == s[..|s| - 4] + [GroupSeparator] + s[|s| - 3..]
    ensures WellGrouped(s[..|s| - 4])
    ensures |s[|s| - 3..]| == 3 && AllDigits(s[|s| - 3..])
  {
    var p, tail := s[..|s| - 4], s[|s| - 3..];
    assert s[|s| - 4] == GroupSeparator;
    forall i | 0 <= i < |p|
      ensures (p[i] == GroupSeparator <==> (|p| - i) % 4 == 0)
    {
      assert p[i] == s[i];
      assert (|s| - i) % 4 == (|p| - i) % 4 by {
        assert |s| - i == (|p| - i) + 4;
      }
    }
    forall i | 0 <= i < 3
      ensures IsDigit(tail[i])
    {
      assert tail[i] == s[|s| - 3 + i];
    }
  }

  /** A lone separator holds no digits. */
  lemma StripSeparator()
    ensures Strip([GroupSeparator]) == []
  {
    assert [GroupSeparator][..0] == [];
  }

  /** Stripping a grouped join keeps the prefix's digits followed by the three digits. */
  lemma StripJoin(p: string, tail: string)
    requires AllDigits(tail)
    ensures Strip(p + [GroupSeparator] + tail) == Strip(p) + tail
  {
    var q := p + [GroupSeparator];
    StripSeparator();
    StripAppend(p, [GroupSeparator]);
    assert Strip(q) == Strip(p);
    StripAppend(q, tail);
    StripNoSeparator(tail);
  }

  /** The display of a non-empty buffer is well grouped. */
  lemma {:induction false} DisplayWellGrouped(b: string)
    requires |b| > 0 && AllDigits(b)
    ensures WellGrouped(Display(b))
    decreases |b|
  {
    if |b| > 3 {
      var head, tail := b[..|b| - 3], b[|b| - 3..];
      DisplayWellGrouped(head);
      assert AllDigits(tail) by {
        forall i | 0 <= i < |tail| ensures IsDigit(tail[i]) {
          assert tail[i] == b[|b| - 3 + i];
        }
      }
      GroupedJoin(Display(head), tail);
    }
  }

  /** A well-grouped text never has a separator within its last three places. */
  lemma WellGroupedLength(s: string)
    requires WellGrouped(s)
    ensures |s| % 4 != 0
  {
  }

  /** A non-empty text that does not start with a separator holds at least one digit. */
  lemma StripNonEmpty(s: string)
    requires |s| > 0 && s[0] != GroupSeparator
    ensures |Strip(s)| > 0
  {
  }

  /**
   The display is the only well-grouped text of the buffer's digits: grouping
   is fully determined by the position rule.
   */
  lemma {:induction false} WellGroupedIsDisplay(s: string)
    requires WellGrouped(s)
    ensures s == Display(Strip(s))
    decreases |s|
  {
    WellGroupedLength(s);
    if |s| <= 3 {
      forall i | 0 <= i < |s| ensures s[i] != GroupSeparator {
        assert 1 <= |s| - i <= 3;
      }
      StripNoSeparator(s);
    } else {
      var p, tail := s[..|s| - 4], s[|s| - 3..];
      GroupedSplit(s);
      WellGroupedIsDisplay(p);
      StripJoin(p, tail);
      StripNonEmpty(p);
      var b := Strip(s);
      assert b == Strip(p) + tail;
      assert b[..|b| - 3] == Strip(p) && b[|b| - 3..] == tail;
    }
  }

  /** Buffers of up to three digits are shown as they are, with no separator. */
  lemma ShortBufferUngrouped(b: string)
    requires |b| <= 3
    ensures Display(b) == b
  {
  }

  /** Seven digits are grouped twice: buffer 1234567 shows as "1.234.567". */
  lemma LongerGrouping()
    ensures Display("1234567") == "1.234.567"
  {
    assert "1234567"[..4] == "1234" && "1234567"[4..] == "567";
    assert "1234"[..1] == "1" && "1234"[1..] == "234";
  }

  /** Buffer 1000 shows as "1.000" and buffer 10003 as "10.003". */
  lemma GroupingExamples()
    ensures Display("1000") == "1.000"
    ensures Display("10003") == "10.003"
  {
  }
}
