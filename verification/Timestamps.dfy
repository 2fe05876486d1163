/** Fixed-width decimal text, compared unit by unit as SQLite compares it. */
module Timestamps {
  import opened JsonText

  /** Binary text comparison: s < t. */
  predicate Less(s: Units, t: Units) {
    t != [] && (s == [] || s[0] < t[0] || (s[0] == t[0] && Less(s[1..], t[1..])))
  }

  lemma {:induction false} LessIsAsymmetric(s: Units, t: Units)
    ensures !(Less(s, t) && Less(t, s)) && !Less(s, s)
  {
    if s != [] {
      LessIsAsymmetric(s[1..], s[1..]);
      if t != [] {
        LessIsAsymmetric(s[1..], t[1..]);
      }
    }
  }

  lemma {:induction false} LessAfterPrefix(p: Units, s: Units, t: Units)
    ensures Less(p + s, p + t) <==> Less(s, t)
  {
    if p == [] {
      assert p + s == s && p + t == t;
    } else {
      assert (p + s)[1..] == p[1..] + s && (p + t)[1..] == p[1..] + t;
      LessAfterPrefix(p[1..], s, t);
    }
  }

  function Pow10(n: nat): nat {
    if n == 0 then 1 else 10 * Pow10(n - 1)
  }

  /** `value.toString().padStart(width, "0")` for a value of at most `width` digits. */
  function Digits(value: nat, width: nat): (r: Units)
    ensures |r| == width
  {
    if width == 0 then [] else Digits(value / 10, width - 1) + [48 + value % 10]
  }

  predicate AreDigits(s: Units) {
    forall i :: 0 <= i < |s| ==> 48 <= s[i] < 58
  }

  function NumberOf(s: Units): int
    decreases |s|
  {
    if s == [] then 0 else 10 * NumberOf(s[..|s| - 1]) + (s[|s| - 1] as int - 48)
  }

  lemma {:induction false} DigitsRead(value: nat, width: nat)
    requires value < Pow10(width)
    ensures AreDigits(Digits(value, width)) && NumberOf(Digits(value, width)) == value
  {
    if width > 0 {
      DigitsRead(value / 10, width - 1);
      assert Digits(value, width)[..width - 1] == Digits(value / 10, width - 1);
    }
  }

  /** Smaller numbers have smaller text, whatever follows. */
  lemma {:induction false} DigitsLess(a: nat, b: nat, width: nat, x: Units, y: Units)
    requires a < b < Pow10(width)
    ensures Less(Digits(a, width) + x, Digits(b, width) + y)
  {
    var u, v: Units := [48 + a % 10], [48 + b % 10];
    var p, q := Digits(a / 10, width - 1), Digits(b / 10, width - 1);
    assert Digits(a, width) + x == p + (u + x) && Digits(b, width) + y == q + (v + y);
    if a / 10 < b / 10 {
      DigitsLess(a / 10, b / 10, width - 1, u + x, v + y);
    } else {
      assert a / 10 == b / 10 && a % 10 < b % 10;
      LessAfterPrefix(p, u + x, v + y);
    }
  }

  /** A number of fixed width, and the text after it. */
  datatype Field = Field(value: nat, width: nat, after: Units)

  function Show(fields: seq<Field>): Units {
    if fields == [] then [] else Digits(fields[0].value, fields[0].width) + fields[0].after + Show(fields[1..])
  }

  predicate InRange(fields: seq<Field>) {
    forall i :: 0 <= i < |fields| ==> fields[i].value < Pow10(fields[i].width)
  }

  predicate SameShape(a: seq<Field>, b: seq<Field>) {
    |a| == |b| && forall i :: 0 <= i < |a| ==> a[i].width == b[i].width && a[i].after == b[i].after
  }

  predicate FieldsLess(a: seq<Field>, b: seq<Field>)
    requires SameShape(a, b)
  {
    a != [] && (a[0].value < b[0].value || (a[0].value == b[0].value && FieldsLess(a[1..], b[1..])))
  }

  /** Text of the same shape is ordered as its numbers are, first field first. */
  lemma {:induction false} ShowLess(a: seq<Field>, b: seq<Field>, x: Units, y: Units)
    requires SameShape(a, b) && InRange(a) && InRange(b) && FieldsLess(a, b)
    ensures Less(Show(a) + x, Show(b) + y)
  {
    var f, g := a[0], b[0];
    var ra, rb := f.after + (Show(a[1..]) + x), g.after + (Show(b[1..]) + y);
    assert Show(a) + x == Digits(f.value, f.width) + ra;
    assert Show(b) + y == Digits(g.value, g.width) + rb;
    if f.value < g.value {
      DigitsLess(f.value, g.value, f.width, ra, rb);
    } else {
      ShowLess(a[1..], b[1..], x, y);
      LessAfterPrefix(f.after, Show(a[1..]) + x, Show(b[1..]) + y);
      LessAfterPrefix(Digits(f.value, f.width), ra, rb);
    }
  }
}
