/**
  Colours and the colour registry's keys: `generateRandomColor` and the
  dimension key `"<width>-<height>"` that `getBlockColor` looks colours up by.
*/
module Colors {
  import opened Geometry

  /** A CSS colour string. */
  type Color = string

  /** The sixteen letters `generateRandomColor` draws from. */
  const HexLetters: string := "0123456789ABCDEF"

  /** `#` followed by six upper-case hexadecimal digits. */
  predicate IsHexColor(s: string)
  {
    |s| == 7 && s[0] == '#' && forall k :: 1 <= k < 7 ==> s[k] in HexLetters
  }

  /**
    `generateRandomColor`: six letters appended to `#`. Which letter
    `Math.random` picks is left open: every run may pick any of the sixteen.
  */
  method GenerateRandomColor() returns (color: Color)
    ensures IsHexColor(color)
  {
    color := "#";
    for i := 0 to 6
      invariant |color| == i + 1 && color[0] == '#'
      invariant forall k :: 1 <= k <= i ==> color[k] in HexLetters
    {
      var letter :| 0 <= letter < |HexLetters|;
      color := color + [HexLetters[letter]];
    }
  }

  /** The character of a decimal digit. */
  function DigitChar(d: int): char
    requires 0 <= d < 10
  {
    ('0' as int + d) as char
  }

  /** Every character of `s` is a decimal digit. */
  predicate AllDigits(s: string)
  {
    forall k :: 0 <= k < |s| ==> '0' <= s[k] <= '9'
  }

  /** The decimal digits of `n`, without leading zeros. */
  function DecimalDigits(n: nat): (s: string)
    ensures 1 <= |s| && AllDigits(s)
    ensures |s| == 1 <==> n < 10
  {
    if n < 10 then [DigitChar(n)] else DecimalDigits(n / 10) + [DigitChar(n % 10)]
  }

  /** How a template literal renders an integer: a minus sign, then the digits. */
  function NumberString(i: int): (s: string)
    ensures 1 <= |s|
    ensures s[0] == '-' <==> i < 0
  {
    if i < 0 then "-" + DecimalDigits(-i) else DecimalDigits(i)
  }

  /** The registry key of `getBlockColor`: `` `${width}-${height}` ``. */
  function DimensionKey(b: Block): string
  {
    NumberString(b.width) + "-" + NumberString(b.height)
  }

  /** Different numbers have different decimal renderings. */
  lemma {:induction false} DecimalDigitsInjective(a: nat, b: nat)
    requires DecimalDigits(a) == DecimalDigits(b)
    ensures a == b
  {
    var sa, sb := DecimalDigits(a), DecimalDigits(b);
    if a >= 10 && b >= 10 {
      assert sa[..|sa| - 1] == DecimalDigits(a / 10);
      assert sb[..|sb| - 1] == DecimalDigits(b / 10);
      DecimalDigitsInjective(a / 10, b / 10);
      assert DigitChar(a % 10) == sa[|sa| - 1] == DigitChar(b % 10);
    }
  }

  /** Different integers have different renderings. */
  lemma NumberStringInjective(i: int, j: int)
    requires NumberString(i) == NumberString(j)
    ensures i == j
  {
    var si, sj := NumberString(i), NumberString(j);
    if i < 0 {
      assert si[1..] == DecimalDigits(-i) && sj[1..] == DecimalDigits(-j);
      DecimalDigitsInjective(-i, -j);
    } else {
      DecimalDigitsInjective(i, j);
    }
  }

  /** A dash-free prefix ends at the first dash, so it is determined by the string. */
  lemma SplitAtDash(u: string, v: string, t1: string, t2: string)
    requires AllDigits(u) && AllDigits(v)
    requires u + "-" + t1 == v + "-" + t2
    ensures u == v && t1 == t2
  {
    var s1, s2 := u + "-" + t1, v + "-" + t2;
    if |u| < |v| {
      DashAt(u, t1, v, t2);
    } else if |v| < |u| {
      DashAt(v, t2, u, t1);
    } else {
      assert u == s1[..|u|] && v == s2[..|v|];
      assert t1 == s1[|u| + 1..] && t2 == s2[|v| + 1..];
    }
  }

  /** A dash-free prefix that is shorter cannot line up with a longer one. */
  lemma DashAt(u: string, t1: string, v: string, t2: string)
    requires AllDigits(v) && |u| < |v|
    ensures u + "-" + t1 != v + "-" + t2
  {
    assert (u + "-" + t1)[|u|] == '-';
    assert (v + "-" + t2)[|u|] == v[|u|];
  }

  /** A rendered integer followed by a dash is determined by the string. */
  lemma SplitNumberAtDash(i: int, j: int, t1: string, t2: string)
    requires NumberString(i) + "-" + t1 == NumberString(j) + "-" + t2
    ensures i == j && t1 == t2
  {
    var si, sj := NumberString(i), NumberString(j);
    var s := si + "-" + t1;
    assert s[0] == si[0];
    assert s[0] == sj[0];
    if i < 0 {
      var di, dj := DecimalDigits(-i), DecimalDigits(-j);
      assert s[1..] == di + "-" + t1;
      assert s[1..] == dj + "-" + t2;
      SplitAtDash(di, dj, t1, t2);
      DecimalDigitsInjective(-i, -j);
    } else {
      SplitAtDash(si, sj, t1, t2);
      DecimalDigitsInjective(i, j);
    }
  }

  /**
    The key names the footprint exactly: two blocks share a registry entry
    if and only if they have the same width and the same height.
  */
  lemma DimensionKeyInjective(a: Block, b: Block)
    ensures DimensionKey(a) == DimensionKey(b) <==> a == b
  {
    if DimensionKey(a) == DimensionKey(b) {
      SplitNumberAtDash(a.width, b.width, NumberString(a.height), NumberString(b.height));
      NumberStringInjective(a.height, b.height);
    }
  }
}
