/**
 * The text the race shows for each tortoise: its name, built from a cyclic
 * pool and a 1-based decimal suffix, and the left-aligned label of width ten
 * drawn at the start of its lane.
 */
module TortoiseNames {

  /** The pool of ten names the race cycles through. */
  const Names: seq<string> :=
    ["Speedy", "Flash", "Bolt", "Dash", "Zoom", "Swift", "Blaze", "Thunder", "Rocket", "Comet"]

  /** Width of the left-aligned name label. */
  const LabelWidth: nat := 10

  predicate IsDigit(c: char) {
    '0' <= c <= '9'
  }

  predicate AllDigits(s: string) {
    forall k :: 0 <= k < |s| ==> IsDigit(s[k])
  }

  predicate NoSpace(s: string) {
    forall k :: 0 <= k < |s| ==> s[k] != ' '
  }

  function DigitChar(d: nat): (c: char)
    requires d < 10
    ensures IsDigit(c) && (c as int) - ('0' as int) == d
  {
    (('0' as int) + d) as char
  }

  /** The decimal numeral of `n`, without leading zeros, as `str` writes it. */
  function Decimal(n: nat): (s: string)
    ensures |s| >= 1 && AllDigits(s)
    ensures n > 0 ==> s[0] != '0'
    ensures n < 10 <==> |s| == 1
  {
    if n < 10 then [DigitChar(n)] else Decimal(n / 10) + [DigitChar(n % 10)]
  }

  /** The number a numeral stands for: the inverse of Decimal. */
  function ParseDecimal(s: string): nat
    requires AllDigits(s)
  {
    if s == [] then 0
    else ParseDecimal(s[..|s| - 1]) * 10 + ((s[|s| - 1] as int) - ('0' as int))
  }

  lemma {:induction false} ParseDecimalOfDecimal(n: nat)
    ensures ParseDecimal(Decimal(n)) == n
  {
    if n >= 10 {
      var s := Decimal(n);
      assert s[..|s| - 1] == Decimal(n / 10);
      ParseDecimalOfDecimal(n / 10);
    }
  }

  lemma DecimalInjective(a: nat, b: nat)
    requires Decimal(a) == Decimal(b)
    ensures a == b
  {
    ParseDecimalOfDecimal(a);
    ParseDecimalOfDecimal(b);
  }

  /**
   * The name of the `i`-th tortoise (0-based): the pool name at `i` modulo the
   * pool size, a space, and a numeral that reads as `i + 1`.
   */
  function TortoiseName(i: nat): (r: string)
    ensures var k := |Names[i % |Names|]|;
            && |r| > k + 1
            && r[..k] == Names[i % |Names|] && r[k] == ' '
            && AllDigits(r[k + 1..]) && ParseDecimal(r[k + 1..]) == i + 1
  {
    var r := Names[i % |Names|] + " " + Decimal(i + 1);
    assert r[|Names[i % |Names|]| + 1..] == Decimal(i + 1);
    ParseDecimalOfDecimal(i + 1);
    r
  }

  lemma PoolNamesHaveNoSpace(k: nat)
    requires k < |Names|
    ensures NoSpace(Names[k])
  {
  }

  /** In a word without spaces followed by a space, that space is the first one. */
  lemma FirstSpaceAt(a: string, d: string)
    requires NoSpace(a)
    ensures (a + " " + d)[|a|] == ' '
    ensures forall k :: 0 <= k < |a| ==> (a + " " + d)[k] != ' '
  {
  }

  /** A word without spaces, a space and the rest: the first space splits the text uniquely. */
  lemma SplitAtFirstSpace(a1: string, d1: string, a2: string, d2: string)
    requires NoSpace(a1) && NoSpace(a2)
    requires a1 + " " + d1 == a2 + " " + d2
    ensures a1 == a2 && d1 == d2
  {
    var s := a1 + " " + d1;
    FirstSpaceAt(a1, d1);
    FirstSpaceAt(a2, d2);
    if |a1| < |a2| {
      assert false;
    } else if |a2| < |a1| {
      assert false;
    }
    assert a1 == s[..|a1|] == a2;
    assert d1 == s[|a1| + 1..] == d2;
  }

  /** Names are pairwise distinct: the suffix `i + 1` tells them apart. */
  lemma TortoiseNamesDistinct(i: nat, j: nat)
    requires i != j
    ensures TortoiseName(i) != TortoiseName(j)
  {
    if TortoiseName(i) == TortoiseName(j) {
      PoolNamesHaveNoSpace(i % |Names|);
      PoolNamesHaveNoSpace(j % |Names|);
      SplitAtFirstSpace(Names[i % |Names|], Decimal(i + 1), Names[j % |Names|], Decimal(j + 1));
      assert false;
    }
  }

  /** Every name ends in a digit of its suffix, never in a space. */
  lemma TortoiseNameEndsInDigit(i: nat)
    ensures var name := TortoiseName(i); |name| >= 1 && IsDigit(name[|name| - 1])
  {
    var d := Decimal(i + 1);
    var name := TortoiseName(i);
    assert name[|name| - 1] == d[|d| - 1];
  }

  function Spaces(k: nat): (s: string)
    ensures |s| == k && forall m :: 0 <= m < k ==> s[m] == ' '
  {
    seq(k, _ => ' ')
  }

  /** The label `name` left-aligned in a field of LabelWidth characters. */
  function Label(name: string): (r: string)
    ensures |r| == if |name| < LabelWidth then LabelWidth else |name|
    ensures r[..|name|] == name
    ensures forall k :: |name| <= k < |r| ==> r[k] == ' '
  {
    if |name| < LabelWidth then name + Spaces(LabelWidth - |name|) else name
  }

  /** Drops the trailing spaces of a text. */
  function TrimTrailingSpaces(s: string): (r: string)
    ensures |r| <= |s|
  {
    if s != [] && s[|s| - 1] == ' ' then TrimTrailingSpaces(s[..|s| - 1]) else s
  }

  lemma {:induction false} TrimPadding(name: string, k: nat)
    requires name == [] || name[|name| - 1] != ' '
    ensures TrimTrailingSpaces(name + Spaces(k)) == name
  {
    if k > 0 {
      var s := name + Spaces(k);
      assert s[..|s| - 1] == name + Spaces(k - 1);
      TrimPadding(name, k - 1);
    } else {
      assert name + Spaces(0) == name;
    }
  }

  /** The padding of a label is recoverable: trimming gives back the name. */
  lemma LabelTrimsToName(name: string)
    requires name == [] || name[|name| - 1] != ' '
    ensures TrimTrailingSpaces(Label(name)) == name
  {
    if |name| < LabelWidth {
      TrimPadding(name, LabelWidth - |name|);
    } else {
      TrimPadding(name, 0);
      assert name + Spaces(0) == name;
    }
  }

  /** Distinct tortoises get distinct labels. */
  lemma TortoiseLabelsDistinct(i: nat, j: nat)
    requires i != j
    ensures Label(TortoiseName(i)) != Label(TortoiseName(j))
  {
    TortoiseNameEndsInDigit(i);
    TortoiseNameEndsInDigit(j);
    LabelTrimsToName(TortoiseName(i));
    LabelTrimsToName(TortoiseName(j));
    TortoiseNamesDistinct(i, j);
  }
}
