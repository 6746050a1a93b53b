/**
  Snapshot names: the UTC time of promotion written with the pattern
  `%Y-%m-%d__%H-%M-%S` (ezbackup.py:111).  Every field is zero-padded to a
  fixed width, so for four-digit years the string order of two names is the
  chronological order of the two times.  That is what lets `backup_stats`
  pick the newest baseline and the oldest eviction victim by plain string
  comparison.
 */
module Timestamps {
  import opened Lex

  /** A broken-down UTC time, the value `datetime.utcnow()` supplies. */
  datatype DateTime = DateTime(year: int, month: int, day: int, hour: int, minute: int, second: int)

  /** Field ranges of a time with a four-digit year. */
  predicate ValidDateTime(t: DateTime)
  {
    1000 <= t.year <= 9999 && 1 <= t.month <= 12 && 1 <= t.day <= 31 &&
    0 <= t.hour < 24 && 0 <= t.minute < 60 && 0 <= t.second < 60
  }

  /** `a` comes strictly before `b`: fields compared from year down to second. */
  predicate Earlier(a: DateTime, b: DateTime)
  {
    a.year < b.year || (a.year == b.year &&
    (a.month < b.month || (a.month == b.month &&
    (a.day < b.day || (a.day == b.day &&
    (a.hour < b.hour || (a.hour == b.hour &&
    (a.minute < b.minute || (a.minute == b.minute &&
    a.second < b.second)))))))))
  }

  function Pow10(n: nat): nat
  {
    if n == 0 then 1 else 10 * Pow10(n - 1)
  }

  predicate IsDigit(c: char)
  {
    '0' <= c <= '9'
  }

  function DigitChar(d: int): char
    requires 0 <= d < 10
  {
    (48 + d) as char
  }

  /** `n` in decimal, zero-padded to exactly `width` characters. */
  function Digits(n: int, width: nat): (s: string)
    requires 0 <= n < Pow10(width)
    ensures |s| == width
    ensures forall i :: 0 <= i < |s| ==> IsDigit(s[i])
  {
    if width == 0 then [] else Digits(n / 10, width - 1) + [DigitChar(n % 10)]
  }

  /** The name `utcnow.strftime('%Y-%m-%d__%H-%M-%S')` gives to a new snapshot. */
  function FormatStamp(t: DateTime): (s: string)
    requires ValidDateTime(t)
    ensures |s| == 20 && IsDigit(s[0])
  {
    (Digits(t.year, 4) + "-") + ((Digits(t.month, 2) + "-") + ((Digits(t.day, 2) + "__") +
    ((Digits(t.hour, 2) + "-") + ((Digits(t.minute, 2) + "-") + Digits(t.second, 2)))))
  }

  /** Fixed-width decimal strings sort as the numbers they write. */
  lemma {:induction false} DigitsOrder(a: int, b: int, width: nat)
    requires 0 <= a < Pow10(width) && 0 <= b < Pow10(width)
    ensures Below(Digits(a, width), Digits(b, width)) <==> a < b
    ensures Digits(a, width) == Digits(b, width) <==> a == b
    decreases width
  {
    if width > 0 {
      var ha, hb := Digits(a / 10, width - 1), Digits(b / 10, width - 1);
      var la, lb := [DigitChar(a % 10)], [DigitChar(b % 10)];
      DigitsOrder(a / 10, b / 10, width - 1);
      BelowAppend(ha, la, hb, lb);
      assert Digits(a, width) == ha + la && Digits(b, width) == hb + lb;
      assert ha + la == hb + lb <==> ha == hb && la == lb by {
        if ha + la == hb + lb {
          assert ha == (ha + la)[..width - 1] && hb == (hb + lb)[..width - 1];
          assert la[0] == (ha + la)[width - 1] && lb[0] == (hb + lb)[width - 1];
        }
      }
    }
  }

  /** One zero-padded field followed by a separator and the rest of the name. */
  lemma FieldOrder(a: int, b: int, width: nat, sep: string, ra: string, rb: string)
    requires 0 <= a < Pow10(width) && 0 <= b < Pow10(width)
    ensures Below((Digits(a, width) + sep) + ra, (Digits(b, width) + sep) + rb)
            <==> a < b || (a == b && Below(ra, rb))
    ensures (Digits(a, width) + sep) + ra == (Digits(b, width) + sep) + rb
            <==> a == b && ra == rb
  {
    var da, db := Digits(a, width), Digits(b, width);
    DigitsOrder(a, b, width);
    BelowIrreflexive(sep);
    BelowAppend(da, sep, db, sep);
    BelowAppend(da + sep, ra, db + sep, rb);
    if (da + sep) + ra == (db + sep) + rb {
      assert da == ((da + sep) + ra)[..width] && db == ((db + sep) + rb)[..width];
      assert ra == ((da + sep) + ra)[width + |sep|..] && rb == ((db + sep) + rb)[width + |sep|..];
    }
  }

  /** String order of snapshot names is chronological order, both ways. */
  lemma StampOrder(a: DateTime, b: DateTime)
    requires ValidDateTime(a) && ValidDateTime(b)
    ensures Below(FormatStamp(a), FormatStamp(b)) <==> Earlier(a, b)
    ensures FormatStamp(a) == FormatStamp(b) <==> a == b
  {
    var s5a, s5b := Digits(a.second, 2), Digits(b.second, 2);
    DigitsOrder(a.second, b.second, 2);
    var s4a, s4b := (Digits(a.minute, 2) + "-") + s5a, (Digits(b.minute, 2) + "-") + s5b;
    FieldOrder(a.minute, b.minute, 2, "-", s5a, s5b);
    var s3a, s3b := (Digits(a.hour, 2) + "-") + s4a, (Digits(b.hour, 2) + "-") + s4b;
    FieldOrder(a.hour, b.hour, 2, "-", s4a, s4b);
    var s2a, s2b := (Digits(a.day, 2) + "__") + s3a, (Digits(b.day, 2) + "__") + s3b;
    FieldOrder(a.day, b.day, 2, "__", s3a, s3b);
    var s1a, s1b := (Digits(a.month, 2) + "-") + s2a, (Digits(b.month, 2) + "-") + s2b;
    FieldOrder(a.month, b.month, 2, "-", s2a, s2b);
    FieldOrder(a.year, b.year, 4, "-", s1a, s1b);
  }

  /** Two snapshots promoted at different seconds get different names. */
  lemma StampInjective(a: DateTime, b: DateTime)
    requires ValidDateTime(a) && ValidDateTime(b) && a != b
    ensures FormatStamp(a) != FormatStamp(b)
  {
    StampOrder(a, b);
  }

  /**
    A formatted name is neither of the two reserved entries of a store
    directory and sorts strictly between the values `''` and `'Z'` that
    `backup_stats` starts its running maximum and minimum from.
   */
  lemma StampShape(t: DateTime)
    requires ValidDateTime(t)
    ensures var s := FormatStamp(t);
      |s| == 20 && s != "incomplete" && s != "current" && Below("", s) && Below(s, "Z")
  {
    var s := FormatStamp(t);
    assert |s| == 20 && IsDigit(s[0]);
  }
}
