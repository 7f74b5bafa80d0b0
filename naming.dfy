/** `pascaleCaseToKebabCase`: a dash before every capital letter except one
    at the very start, then ASCII lower-casing. */
module Naming {
  import opened Strings
  import Seqs

  /** A dash before each capital letter of `s`. */
  function DashBeforeCapitals(s: string): string
  {
    if s == [] then []
    else (if IsUpper(s[0]) then ['-', s[0]] else [s[0]]) + DashBeforeCapitals(s[1..])
  }

  /** The replacement step: the first character is never preceded by a
      dash, every later capital is. */
  function InsertDashes(s: string): string
  {
    if s == [] then [] else [s[0]] + DashBeforeCapitals(s[1..])
  }

  function KebabCase(s: string): (r: string)
    ensures forall i :: 0 <= i < |r| ==> !IsUpper(r[i])
  {
    ToLower(InsertDashes(s))
  }

  function CapitalCount(s: string): nat
  {
    if s == [] then 0 else (if IsUpper(s[0]) then 1 else 0) + CapitalCount(s[1..])
  }

  function WithoutDashes(s: string): string
  {
    if s == [] then [] else (if s[0] == '-' then [] else [s[0]]) + WithoutDashes(s[1..])
  }

  lemma {:induction false} WithoutDashesConcat(a: string, b: string)
    ensures WithoutDashes(a + b) == WithoutDashes(a) + WithoutDashes(b)
  {
    if a == [] {
      assert a + b == b;
    } else {
      assert (a + b)[1..] == a[1..] + b;
      WithoutDashesConcat(a[1..], b);
    }
  }

  lemma {:induction false} DashBeforeCapitalsShape(s: string)
    ensures |DashBeforeCapitals(s)| == |s| + CapitalCount(s)
    ensures '-' !in s ==> WithoutDashes(DashBeforeCapitals(s)) == s
  {
    if s != [] {
      DashBeforeCapitalsShape(s[1..]);
      var head := if IsUpper(s[0]) then ['-', s[0]] else [s[0]];
      WithoutDashesConcat(head, DashBeforeCapitals(s[1..]));
      if '-' !in s {
        assert '-' !in s[1..];
        assert s[0] != '-';
        assert WithoutDashes(head) == [s[0]];
        assert s == [s[0]] + s[1..];
      }
    }
  }

  /** The result grows by one dash per capital letter after the first
      character, and has no capitals left. */
  lemma KebabLength(s: string)
    ensures |KebabCase(s)| == |s| + (if s == [] then 0 else CapitalCount(s[1..]))
  {
    if s != [] {
      DashBeforeCapitalsShape(s[1..]);
    }
  }

  lemma {:induction false} WithoutDashesLower(s: string)
    ensures WithoutDashes(ToLower(s)) == ToLower(WithoutDashes(s))
  {
    if s != [] {
      WithoutDashesLower(s[1..]);
      assert ToLower(s)[1..] == ToLower(s[1..]);
      assert ToLower(s) == [LowerChar(s[0])] + ToLower(s[1..]);
      assert LowerChar(s[0]) == '-' <==> s[0] == '-';
      WithoutDashesConcat([s[0]], s[1..]);
      assert s == [s[0]] + s[1..];
      if s[0] != '-' {
        assert ToLower([s[0]] + WithoutDashes(s[1..])) == [LowerChar(s[0])] + ToLower(WithoutDashes(s[1..]));
      }
    }
  }

  /** For a name without dashes, dropping the inserted dashes gives the
      lower-cased name back. */
  lemma KebabWithoutDashes(s: string)
    requires '-' !in s
    ensures WithoutDashes(KebabCase(s)) == ToLower(s)
  {
    if s != [] {
      assert '-' !in s[1..];
      DashBeforeCapitalsShape(s[1..]);
      WithoutDashesLower(InsertDashes(s));
      WithoutDashesConcat([s[0]], DashBeforeCapitals(s[1..]));
      WithoutDashesConcat([s[0]], s[1..]);
      assert s == [s[0]] + s[1..];
    }
  }

  predicate NoCapitals(s: string)
  {
    forall i :: 0 <= i < |s| ==> !IsUpper(s[i])
  }

  lemma {:induction false} DashBeforeCapitalsConcat(a: string, b: string)
    ensures DashBeforeCapitals(a + b) == DashBeforeCapitals(a) + DashBeforeCapitals(b)
  {
    if a == [] {
      assert a + b == b;
    } else {
      var head := if IsUpper(a[0]) then ['-', a[0]] else [a[0]];
      assert (a + b)[0] == a[0];
      assert (a + b)[1..] == a[1..] + b;
      DashBeforeCapitalsConcat(a[1..], b);
      Seqs.AppendAssoc(head, DashBeforeCapitals(a[1..]), DashBeforeCapitals(b));
    }
  }

  lemma {:induction false} DashBeforeCapitalsNone(s: string)
    requires NoCapitals(s)
    ensures DashBeforeCapitals(s) == s
  {
    if s != [] {
      assert !IsUpper(s[0]);
      DashBeforeCapitalsNone(s[1..]);
      assert s == [s[0]] + s[1..];
    }
  }

  /** Two capitalised words, `Ab`, become `a-b` in lower case: one dash
      between the words and none in front. */
  lemma TwoWords(x: char, a: string, y: char, b: string)
    requires IsUpper(x) && IsUpper(y) && NoCapitals(a) && NoCapitals(b)
    ensures KebabCase([x] + a + [y] + b) == [LowerChar(x)] + a + ['-', LowerChar(y)] + b
  {
    var s := [x] + a + [y] + b;
    assert s[0] == x && s[1..] == a + [y] + b;
    DashBeforeCapitalsConcat(a + [y], b);
    DashBeforeCapitalsConcat(a, [y]);
    DashBeforeCapitalsNone(a);
    DashBeforeCapitalsNone(b);
    assert DashBeforeCapitals([y]) == ['-', y] by {
      assert [y][1..] == [];
    }
    var dashed := [x] + a + ['-', y] + b;
    assert InsertDashes(s) == dashed;
    var r := ToLower(dashed);
    var want := [LowerChar(x)] + a + ['-', LowerChar(y)] + b;
    assert |r| == |want|;
    forall i | 0 <= i < |r| ensures r[i] == want[i] {
      if 1 <= i < 1 + |a| {
        assert dashed[i] == a[i - 1] == want[i];
      } else if i >= |a| + 3 {
        assert dashed[i] == b[i - |a| - 3] == want[i];
      }
    }
  }

  /** The widget name `MiniMonth` becomes `mini-month`. */
  lemma MiniMonthName()
    ensures KebabCase("MiniMonth") == "mini-month"
  {
    TwoWords('M', "ini", 'M', "onth");
    assert "MiniMonth" == ['M'] + "ini" + ['M'] + "onth";
    assert "mini-month" == [LowerChar('M')] + "ini" + ['-', LowerChar('M')] + "onth";
  }
}
