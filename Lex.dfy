/**
  Python's ordering of `str` values, which the snapshot store relies on to
  find its newest and oldest entries: code points are compared left to right
  and a proper prefix sorts first.  On top of it, the two folds that
  `backup_stats` performs (running maximum from `''`, running minimum from
  `'Z'`) are given as specification functions.
 */
module Lex {

  /** `a < b` on Python strings. */
  predicate Below(a: string, b: string)
    decreases |a|
  {
    if |a| == 0 then |b| > 0
    else |b| > 0 && (a[0] < b[0] || (a[0] == b[0] && Below(a[1..], b[1..])))
  }

  /** `a <= b` on Python strings. */
  predicate AtMost(a: string, b: string)
  {
    !Below(b, a)
  }

  lemma {:induction false} BelowIrreflexive(a: string)
    ensures !Below(a, a)
    decreases |a|
  {
    if |a| > 0 {
      BelowIrreflexive(a[1..]);
    }
  }

  lemma {:induction false} BelowAsymmetric(a: string, b: string)
    ensures Below(a, b) ==> !Below(b, a)
    decreases |a|
  {
    if |a| > 0 && |b| > 0 && a[0] == b[0] {
      BelowAsymmetric(a[1..], b[1..]);
    }
  }

  lemma {:induction false} BelowTransitive(a: string, b: string, c: string)
    ensures Below(a, b) && Below(b, c) ==> Below(a, c)
    decreases |a|
  {
    if |a| > 0 && |b| > 0 && |c| > 0 && a[0] == b[0] && b[0] == c[0] {
      BelowTransitive(a[1..], b[1..], c[1..]);
    }
  }

  /** Any two strings are equal or ordered one way: the order is total. */
  lemma {:induction false} BelowTotal(a: string, b: string)
    ensures a == b || Below(a, b) || Below(b, a)
    decreases |a|
  {
    if |a| > 0 && |b| > 0 && a[0] == b[0] {
      BelowTotal(a[1..], b[1..]);
      assert a == [a[0]] + a[1..] && b == [b[0]] + b[1..];
    }
  }

  lemma AtMostTransitive(a: string, b: string, c: string)
    requires AtMost(a, b) && AtMost(b, c)
    ensures AtMost(a, c)
  {
    BelowTotal(a, b);
    BelowTotal(b, c);
    BelowIrreflexive(a);
    BelowTransitive(a, b, c);
    BelowAsymmetric(a, c);
  }

  /**
    Comparing two strings whose first parts have equal length: the first
    parts decide, and only when they are equal do the rest decide.
   */
  lemma {:induction false} BelowAppend(x: string, y: string, x': string, y': string)
    requires |x| == |x'|
    ensures Below(x + y, x' + y') <==> Below(x, x') || (x == x' && Below(y, y'))
    decreases |x|
  {
    if |x| > 0 {
      assert (x + y)[0] == x[0] && (x' + y')[0] == x'[0];
      assert (x + y)[1..] == x[1..] + y && (x' + y')[1..] == x'[1..] + y';
      BelowAppend(x[1..], y, x'[1..], y');
      if x[0] == x'[0] {
        assert x == x' <==> x[1..] == x'[1..] by {
          assert x == [x[0]] + x[1..] && x' == [x'[0]] + x'[1..];
        }
      }
    } else {
      assert x + y == y && x' + y' == y';
    }
  }

  /** `r` is the largest of `s` and the starting value `floor`. */
  ghost predicate IsGreatest(r: string, s: set<string>, floor: string)
  {
    (r == floor || r in s) && AtMost(floor, r) && forall x :: x in s ==> AtMost(x, r)
  }

  /** `r` is the smallest of `s` and the starting value `ceiling`. */
  ghost predicate IsLeast(r: string, s: set<string>, ceiling: string)
  {
    (r == ceiling || r in s) && AtMost(r, ceiling) && forall x :: x in s ==> AtMost(r, x)
  }

  /**
    The running maximum `if x > acc: acc = x` folded over `s` from `floor`,
    visiting the elements in an arbitrary order.
   */
  ghost function Max(s: set<string>, floor: string): string
    decreases s
  {
    if s == {} then floor
    else
      var x :| x in s;
      Max(s - {x}, if Below(floor, x) then x else floor)
  }

  /**
    The running minimum `if x < acc: acc = x` folded over `s` from `ceiling`,
    visiting the elements in an arbitrary order.
   */
  ghost function Min(s: set<string>, ceiling: string): string
    decreases s
  {
    if s == {} then ceiling
    else
      var x :| x in s;
      Min(s - {x}, if Below(x, ceiling) then x else ceiling)
  }

  /** Whatever order the fold visits `s` in, it ends at the largest of `s` and `floor`. */
  lemma {:induction false} MaxIsGreatest(s: set<string>, floor: string)
    ensures IsGreatest(Max(s, floor), s, floor)
    decreases s
  {
    if s == {} {
      BelowIrreflexive(floor);
    } else {
      var x :| x in s && Max(s, floor) == Max(s - {x}, if Below(floor, x) then x else floor);
      var acc := if Below(floor, x) then x else floor;
      MaxIsGreatest(s - {x}, acc);
      BelowIrreflexive(floor);
      GreatestStep(floor, {}, floor, x);
      var r := Max(s, floor);
      AtMostTransitive(floor, acc, r);
      AtMostTransitive(x, acc, r);
    }
  }

  /** Whatever order the fold visits `s` in, it ends at the smallest of `s` and `ceiling`. */
  lemma {:induction false} MinIsLeast(s: set<string>, ceiling: string)
    ensures IsLeast(Min(s, ceiling), s, ceiling)
    decreases s
  {
    if s == {} {
      BelowIrreflexive(ceiling);
    } else {
      var x :| x in s && Min(s, ceiling) == Min(s - {x}, if Below(x, ceiling) then x else ceiling);
      var acc := if Below(x, ceiling) then x else ceiling;
      MinIsLeast(s - {x}, acc);
      BelowIrreflexive(ceiling);
      LeastStep(ceiling, {}, ceiling, x);
      var r := Min(s, ceiling);
      AtMostTransitive(r, acc, ceiling);
      AtMostTransitive(r, acc, x);
    }
  }

  /** One step of the running maximum keeps it the maximum of what has been seen. */
  lemma GreatestStep(acc: string, seen: set<string>, floor: string, x: string)
    requires IsGreatest(acc, seen, floor)
    ensures IsGreatest(if Below(acc, x) then x else acc, seen + {x}, floor)
  {
    var acc' := if Below(acc, x) then x else acc;
    BelowTotal(acc, x);
    BelowAsymmetric(acc, x);
    BelowIrreflexive(x);
    BelowIrreflexive(acc);
    forall y | y in seen + {x} ensures AtMost(y, acc') {
      if y in seen { AtMostTransitive(y, acc, acc'); }
    }
    AtMostTransitive(floor, acc, acc');
  }

  /** One step of the running minimum keeps it the minimum of what has been seen. */
  lemma LeastStep(acc: string, seen: set<string>, ceiling: string, x: string)
    requires IsLeast(acc, seen, ceiling)
    ensures IsLeast(if Below(x, acc) then x else acc, seen + {x}, ceiling)
  {
    var acc' := if Below(x, acc) then x else acc;
    BelowTotal(acc, x);
    BelowAsymmetric(x, acc);
    BelowIrreflexive(x);
    BelowIrreflexive(acc);
    forall y | y in seen + {x} ensures AtMost(acc', y) {
      if y in seen { AtMostTransitive(acc', acc, y); }
    }
    AtMostTransitive(acc', acc, ceiling);
  }

  /** The maximum does not depend on the order of the fold. */
  lemma GreatestUnique(r: string, r': string, s: set<string>, floor: string)
    requires IsGreatest(r, s, floor) && IsGreatest(r', s, floor)
    ensures r == r'
  {
    BelowTotal(r, r');
  }

  /** The minimum does not depend on the order of the fold. */
  lemma LeastUnique(r: string, r': string, s: set<string>, ceiling: string)
    requires IsLeast(r, s, ceiling) && IsLeast(r', s, ceiling)
    ensures r == r'
  {
    BelowTotal(r, r');
  }
}
