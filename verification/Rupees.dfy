/** Comma-grouped rupee amounts. */
module Rupees {
  import opened Basics

  function Digit(d: nat): (c: char)
    requires d < 10
    ensures c != ',' && c != '-'
  {
    ('0' as int + d) as char
  }

  /** The decimal digits of n. */
  function Decimal(n: nat): (s: string)
    ensures s != [] && forall i :: 0 <= i < |s| ==> s[i] != ',' && s[i] != '-'
  {
    if n < 10 then [Digit(n)] else Decimal(n / 10) + [Digit(n % 10)]
  }

  /** strconv.FormatInt in base ten. */
  function FormatInt(n: int): string
  {
    if n < 0 then "-" + Decimal(-n) else Decimal(n)
  }

  /** Division that truncates toward zero. */
  function Truncated(a: int, b: nat): int
    requires b > 0
  {
    if a < 0 then -(-a / b) else a / b
  }

  /** Groups of three, counted from the right. */
  function Group(s: string): string
  {
    if |s| <= 3 then s else Group(s[..|s| - 3]) + "," + s[|s| - 3..]
  }

  function Uncomma(s: string): string
  {
    if s == [] then [] else
    Uncomma(s[..|s| - 1]) + (if s[|s| - 1] == ',' then [] else [s[|s| - 1]])
  }

  /** The number a digit string reads as. */
  function Value(s: string): int
  {
    if s == [] then 0 else 10 * Value(s[..|s| - 1]) + (s[|s| - 1] as int - '0' as int)
  }

  lemma {:induction false} UncommaConcat(a: string, b: string)
    ensures Uncomma(a + b) == Uncomma(a) + Uncomma(b)
  {
    if b == [] {
      assert a + b == a;
    } else {
      assert (a + b)[..|a + b| - 1] == a + b[..|b| - 1];
      UncommaConcat(a, b[..|b| - 1]);
    }
  }

  lemma {:induction false} UncommaPlain(s: string)
    requires forall i :: 0 <= i < |s| ==> s[i] != ','
    ensures Uncomma(s) == s
  {
    if s == [] {
    } else {
      var front, last := s[..|s| - 1], s[|s| - 1];
      UncommaPlain(front);
      assert last != ',' && Uncomma(s) == Uncomma(front) + [last];
      assert s == front + [last];
    }
  }

  lemma {:induction false} UncommaGroup(s: string)
    requires forall i :: 0 <= i < |s| ==> s[i] != ','
    ensures Uncomma(Group(s)) == s
  {
    if |s| <= 3 {
      UncommaPlain(s);
    } else {
      var front, last := s[..|s| - 3], s[|s| - 3..];
      UncommaGroup(front);
      UncommaPlain(last);
      UncommaConcat(Group(front) + ",", last);
      UncommaConcat(Group(front), ",");
      assert Uncomma(",") == [];
      assert Group(s) == Group(front) + "," + last && s == front + last;
    }
  }

  lemma {:induction false} DecimalValue(n: nat)
    ensures Value(Decimal(n)) == n
  {
    if n >= 10 {
      DecimalValue(n / 10);
      assert Decimal(n)[..|Decimal(n)| - 1] == Decimal(n / 10);
    }
  }

  /** Commas stand exactly at every fourth place from the right, and never first. */
  ghost predicate WellGrouped(r: string)
  {
    && r != [] && r[0] != ','
    && forall k :: 0 <= k < |r| ==> (r[k] == ',' <==> (|r| - k) % 4 == 0)
  }

  lemma OneMoreGroup(g: string, last: string)
    requires WellGrouped(g) && |last| == 3 && forall i :: 0 <= i < |last| ==> last[i] != ','
    ensures WellGrouped(g + "," + last) && (g + "," + last)[0] == g[0]
  {
    var r := g + "," + last;
    forall k | 0 <= k < |r| ensures r[k] == ',' <==> (|r| - k) % 4 == 0 {
      if k < |g| {
        assert r[k] == g[k] && |r| - k == |g| - k + 4;
      } else if k > |g| {
        assert r[k] == last[k - |g| - 1];
      }
    }
  }

  lemma {:induction false} GroupPlaces(s: string)
    requires s != [] && forall i :: 0 <= i < |s| ==> s[i] != ','
    ensures WellGrouped(Group(s)) && Group(s)[0] == s[0]
  {
    if |s| > 3 {
      var front, last := s[..|s| - 3], s[|s| - 3..];
      GroupPlaces(front);
      OneMoreGroup(Group(front), last);
      assert Group(s) == Group(front) + "," + last;
    }
  }

  lemma GroupStep(s: string, i: nat)
    requires i + 3 <= |s|
    ensures Group(s[..i + 3]) == if i == 0 then s[i..i + 3] else Group(s[..i]) + "," + s[i..i + 3]
  {
    assert s[..i + 3][..i] == s[..i] && s[..i + 3][i..] == s[i..i + 3];
    if i == 0 { assert s[..3] == s[0..3]; }
  }

  /** What the loop has written when `i` digits are done: their groups, and the comma that more will follow. */
  function Written(s: string, i: nat): string
    requires i <= |s|
  {
    if i == 0 then "" else if i < |s| then Group(s[..i]) + "," else Group(s)
  }

  lemma WrittenStep(s: string, i: nat)
    requires i + 3 <= |s|
    ensures Written(s, i + 3)
      == if i + 3 < |s| then Written(s, i) + s[i..i + 3] + "," else Written(s, i) + s[i..i + 3]
  {
    GroupStep(s, i);
    assert i + 3 == |s| ==> s[..i + 3] == s;
  }

  lemma WrittenFirst(s: string, rem: nat)
    requires rem < 3 < |s|
    ensures Written(s, rem) == if rem > 0 then s[..rem] + "," else ""
  {
  }

  /** The loop that writes the groups from the left. */
  method WriteGroups(s: string) returns (b: string)
    requires |s| > 3
    ensures b == Group(s)
  {
    var n := |s|;
    b := "";
    var rem := n % 3;
    if rem > 0 {
      b := s[..rem] + ",";
    }
    WrittenFirst(s, rem);
    var i := rem;
    while i < n
      invariant i <= n && (n - i) % 3 == 0
      invariant b == Written(s, i)
    {
      WrittenStep(s, i);
      b := b + s[i..i + 3];
      if i + 3 < n {
        b := b + ",";
      }
      i := i + 3;
    }
  }

  /** Whole rupees, grouped when there are more than three characters. */
  method FormatRupees(paise: int) returns (r: string)
    ensures r == Group(FormatInt(Truncated(paise, 100)))
  {
    var rupees := Truncated(paise, 100);
    var s := FormatInt(rupees);
    if |s| <= 3 {
      return s;
    }
    r := WriteGroups(s);
  }

  /** Every non-negative amount reads back as its whole rupees and is grouped in threes. */
  lemma RupeesReadBack(paise: nat)
    ensures var r := Group(FormatInt(Truncated(paise, 100)));
      && Value(Uncomma(r)) == paise / 100
      && WellGrouped(r)
  {
    var s := Decimal(paise / 100);
    assert FormatInt(Truncated(paise, 100)) == s;
    assert Uncomma(Group(s)) == s by { UncommaGroup(s); }
    assert Value(s) == paise / 100 by { DecimalValue(paise / 100); }
    assert WellGrouped(Group(s)) by { GroupPlaces(s); }
  }

  /** The last three digits are the last group, whatever stands before them. */
  lemma LastGroup(front: string, last: string)
    requires front != [] && |last| == 3
    ensures Group(front + last) == Group(front) + "," + last
  {
    assert (front + last)[..|front|] == front && (front + last)[|front|..] == last;
  }

  lemma SignMovesOut(sign: string, g: string, last: string)
    ensures (sign + g) + "," + last == sign + (g + "," + last)
  {
    Associative(sign, g, ",");
    Associative(sign, g + ",", last);
  }

  function SignOf(d: string): string
  {
    if |d| % 3 == 0 then "-," else "-"
  }

  /** What grouping does to a signed number: the sign takes up a place. */
  lemma {:induction false} GroupSign(d: string)
    requires d != []
    ensures Group("-" + d) == SignOf(d) + Group(d)
  {
    if |d| == 3 {
      LastGroup("-", d);
      assert "-" + "," == "-,";
    } else if |d| > 3 {
      var front, last := d[..|d| - 3], d[|d| - 3..];
      assert "-" + d == ("-" + front) + last && d == front + last;
      LastGroup("-" + front, last);
      LastGroup(front, last);
      GroupSign(front);
      SignMovesOut(SignOf(front), Group(front), last);
    }
  }

  /**
   * The sign is counted as a digit: a negative amount prints as a minus and
   * its grouped digits exactly when the number of digits is no multiple of three.
   */
  lemma NegativeRupees(paise: int)
    requires paise <= -100
    ensures var digits := Decimal(-paise / 100);
      && FormatInt(Truncated(paise, 100)) == "-" + digits
      && (Group("-" + digits) == "-" + Group(digits) <==> |digits| % 3 != 0)
  {
    var digits := Decimal(-paise / 100);
    GroupSign(digits);
    assert |"-," + Group(digits)| != |"-" + Group(digits)|;
  }

  /** Less than a rupee owed the other way is no rupees, without a sign. */
  lemma NoWholeRupee(paise: int)
    requires -100 < paise < 100
    ensures Group(FormatInt(Truncated(paise, 100))) == "0"
  {
    assert Truncated(paise, 100) == 0;
  }

  /** One lakh rupees owed the other way. */
  lemma MisplacedComma()
    ensures Group(FormatInt(Truncated(-10000000, 100))) == "-,100,000"
  {
    assert Decimal(100000) == "100000" by {
      assert Decimal(100) == "100";
      assert Decimal(10000) == Decimal(1000) + "0" && Decimal(1000) == Decimal(100) + "0";
    }
    assert "-100000"[..4] == "-100" && "-100000"[4..] == "000";
  }
}
