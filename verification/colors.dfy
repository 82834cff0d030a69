/**
 * The colour helpers of colors.py. A colour is a tuple whose first three
 * entries are red, green and blue; each helper builds a fresh three-entry
 * list in a loop and returns it as a tuple, so its arguments are never
 * changed. Each method is specified by a function on values, and the
 * properties of the helpers are lemmas about those functions.
 */
module Colors {

  /** Every colour in the list has the three entries the helpers index. */
  predicate AllColors(colors: seq<seq<int>>) {
    forall k :: 0 <= k < |colors| ==> |colors[k]| >= 3
  }

  /** The three components lie in 0..255. */
  predicate InGamut(color: seq<int>) {
    |color| >= 3 && forall i :: 0 <= i < 3 ==> 0 <= color[i] <= 255
  }

  /** One component of darken: c - amount while that stays above 0, else 0. */
  function Darker(c: int, amount: int): int {
    if c - amount > 0 then c - amount else 0
  }

  /** One component of lighten: c + amount while that stays below 255, else 255. */
  function Lighter(c: int, amount: int): int {
    if c + amount < 255 then c + amount else 255
  }

  /** darken(color, amount) as a value: three components, each darkened on its own, never below 0. */
  function Darkened(color: seq<int>, amount: int): (r: seq<int>)
    requires |color| >= 3
    ensures |r| == 3
    ensures forall i :: 0 <= i < 3 ==> r[i] == Darker(color[i], amount) && r[i] >= 0
  {
    [Darker(color[0], amount), Darker(color[1], amount), Darker(color[2], amount)]
  }

  /** lighten(color, amount) as a value: three components, each lightened on its own, never above 255. */
  function Lightened(color: seq<int>, amount: int): (r: seq<int>)
    requires |color| >= 3
    ensures |r| == 3
    ensures forall i :: 0 <= i < 3 ==> r[i] == Lighter(color[i], amount) && r[i] <= 255
  {
    [Lighter(color[0], amount), Lighter(color[1], amount), Lighter(color[2], amount)]
  }

  /** darken(color, amount=50): fills a new list component by component. */
  method Darken(color: seq<int>, amount: int := 50) returns (r: seq<int>)
    requires |color| >= 3
    ensures r == Darkened(color, amount)
  {
    var newColor := [0, 0, 0];
    for i := 0 to 3
      invariant |newColor| == 3
      invariant forall j :: 0 <= j < i ==> newColor[j] == Darker(color[j], amount)
    {
      if color[i] - amount > 0 {
        newColor := newColor[i := color[i] - amount];
      } else {
        newColor := newColor[i := 0];
      }
    }
    r := newColor;
  }

  /** lighten(color, amount=50): fills a new list component by component. */
  method Lighten(color: seq<int>, amount: int := 50) returns (r: seq<int>)
    requires |color| >= 3
    ensures r == Lightened(color, amount)
  {
    var newColor := [0, 0, 0];
    for i := 0 to 3
      invariant |newColor| == 3
      invariant forall j :: 0 <= j < i ==> newColor[j] == Lighter(color[j], amount)
    {
      if color[i] + amount < 255 {
        newColor := newColor[i := color[i] + amount];
      } else {
        newColor := newColor[i := 255];
      }
    }
    r := newColor;
  }

  /** A colour in 0..255 darkened by a non-negative amount stays in 0..255 and no component grows. */
  lemma DarkenInGamut(color: seq<int>, amount: int)
    requires InGamut(color) && 0 <= amount
    ensures InGamut(Darkened(color, amount))
    ensures forall i :: 0 <= i < 3 ==> Darkened(color, amount)[i] <= color[i]
  {
  }

  /** A colour in 0..255 lightened by a non-negative amount stays in 0..255 and no component shrinks. */
  lemma LightenInGamut(color: seq<int>, amount: int)
    requires InGamut(color) && 0 <= amount
    ensures InGamut(Lightened(color, amount))
    ensures forall i :: 0 <= i < 3 ==> Lightened(color, amount)[i] >= color[i]
  {
  }

  /** darken gives black exactly when no component exceeds the amount. */
  lemma DarkenToBlack(color: seq<int>, amount: int)
    requires |color| >= 3
    ensures Darkened(color, amount) == [0, 0, 0] <==> forall i :: 0 <= i < 3 ==> color[i] <= amount
  {
    var r := Darkened(color, amount);
    if r == [0, 0, 0] {
      forall i | 0 <= i < 3
        ensures color[i] <= amount
      {
        assert r[i] == 0;
      }
    }
  }

  /** lighten gives white exactly when every component reaches 255 once the amount is added. */
  lemma LightenToWhite(color: seq<int>, amount: int)
    requires |color| >= 3
    ensures Lightened(color, amount) == [255, 255, 255] <==> forall i :: 0 <= i < 3 ==> color[i] + amount >= 255
  {
    var r := Lightened(color, amount);
    if r == [255, 255, 255] {
      forall i | 0 <= i < 3
        ensures color[i] + amount >= 255
      {
        assert r[i] == 255;
      }
    }
  }

  /** Lightening by the amount a colour was darkened by gives it back, as long as darkening did not clip at 0. */
  lemma LightenUndoesDarken(color: seq<int>, amount: int)
    requires InGamut(color) && 0 <= amount
    requires forall i :: 0 <= i < 3 ==> amount < color[i]
    ensures Lightened(Darkened(color, amount), amount) == color[..3]
  {
  }

  /** `int(a / n)` for a positive n: the exact quotient truncated toward zero. */
  function TruncDiv(a: int, n: int): int
    requires n > 0
  {
    if a >= 0 then a / n else -((-a) / n)
  }

  /** Component i summed over the colours, in list order. */
  function ComponentSum(colors: seq<seq<int>>, i: int): int
    requires AllColors(colors) && 0 <= i < 3
    decreases |colors|
  {
    if colors == [] then 0 else ComponentSum(colors[..|colors| - 1], i) + colors[|colors| - 1][i]
  }

  /**
   * mix(colors) as a value: (0, 0, 0) for an empty list, otherwise the
   * per-component mean truncated toward zero.
   */
  function Mixed(colors: seq<seq<int>>): (r: seq<int>)
    requires AllColors(colors)
    ensures |r| == 3
    ensures colors == [] ==> r == [0, 0, 0]
  {
    if colors == [] then [0, 0, 0]
    else
      var n := |colors|;
      [TruncDiv(ComponentSum(colors, 0), n), TruncDiv(ComponentSum(colors, 1), n), TruncDiv(ComponentSum(colors, 2), n)]
  }

  /**
   * mix(colors): adds each colour into a running sum and, after each one,
   * recomputes the mean from that sum and the full length of the list.
   * The ZeroDivisionError handler can never run: the division happens only
   * inside the loop over a non-empty list.
   */
  method Mix(colors: seq<seq<int>>) returns (r: seq<int>)
    requires AllColors(colors)
    ensures r == Mixed(colors)
  {
    var newColor := [0, 0, 0];
    var colorSum := [0, 0, 0];
    for k := 0 to |colors|
      invariant |newColor| == 3 && |colorSum| == 3
      invariant forall j :: 0 <= j < 3 ==> colorSum[j] == ComponentSum(colors[..k], j)
      invariant k == 0 ==> newColor == [0, 0, 0]
      invariant k > 0 ==> forall j :: 0 <= j < 3 ==> newColor[j] == TruncDiv(ComponentSum(colors[..k], j), |colors|)
    {
      var color := colors[k];
      assert colors[..k + 1][..k] == colors[..k];
      for i := 0 to 3
        invariant |colorSum| == 3
        invariant forall j :: 0 <= j < i ==> colorSum[j] == ComponentSum(colors[..k + 1], j)
        invariant forall j :: i <= j < 3 ==> colorSum[j] == ComponentSum(colors[..k], j)
      {
        colorSum := colorSum[i := colorSum[i] + color[i]];
      }
      for i := 0 to 3
        invariant |newColor| == 3
        invariant forall j :: 0 <= j < i ==> newColor[j] == TruncDiv(colorSum[j], |colors|)
      {
        newColor := newColor[i := TruncDiv(colorSum[i], |colors|)];
      }
    }
    assert colors[..|colors|] == colors;
    r := newColor;
  }

  /** Mixing a single colour gives that colour back. */
  lemma MixSingle(color: seq<int>)
    requires |color| >= 3
    ensures Mixed([color]) == color[..3]
  {
    var cs := [color];
    forall i | 0 <= i < 3
      ensures ComponentSum(cs, i) == color[i]
    {
      assert cs[..0] == [];
    }
  }

  /** Component i of n copies of one colour sums to n times that component. */
  lemma {:induction false} SumOfCopies(color: seq<int>, n: nat, i: int)
    requires |color| >= 3 && 0 <= i < 3
    ensures AllColors(seq(n, _ => color))
    ensures ComponentSum(seq(n, _ => color), i) == n * color[i]
  {
    var cs := seq(n, _ => color);
    if n > 0 {
      assert cs[..n - 1] == seq(n - 1, _ => color);
      SumOfCopies(color, n - 1, i);
    }
  }

  /** Mixing n >= 1 copies of one colour gives that colour back, whatever the sign of its components. */
  lemma MixCopies(color: seq<int>, n: nat)
    requires |color| >= 3 && 1 <= n
    ensures AllColors(seq(n, _ => color))
    ensures Mixed(seq(n, _ => color)) == color[..3]
  {
    var cs := seq(n, _ => color);
    SumOfCopies(color, n, 0);
    forall i | 0 <= i < 3
      ensures TruncDiv(ComponentSum(cs, i), n) == color[i]
    {
      SumOfCopies(color, n, i);
      if color[i] >= 0 {
        MulDiv(n, color[i]);
      } else {
        assert -(n * color[i]) == n * (-color[i]);
        MulDiv(n, -color[i]);
      }
    }
  }

  /** Colours in 0..255 have component sums between 0 and 255 per colour. */
  lemma {:induction false} SumInRange(colors: seq<seq<int>>, i: int)
    requires AllColors(colors) && 0 <= i < 3
    requires forall k :: 0 <= k < |colors| ==> InGamut(colors[k])
    ensures 0 <= ComponentSum(colors, i) <= 255 * |colors|
    decreases |colors|
  {
    if colors != [] {
      SumInRange(colors[..|colors| - 1], i);
      assert InGamut(colors[|colors| - 1]);
    }
  }

  /** Mixing colours in 0..255 gives a colour in 0..255. */
  lemma MixInGamut(colors: seq<seq<int>>)
    requires AllColors(colors)
    requires forall k :: 0 <= k < |colors| ==> InGamut(colors[k])
    ensures InGamut(Mixed(colors))
  {
    if colors != [] {
      var n := |colors|;
      forall i | 0 <= i < 3
        ensures 0 <= TruncDiv(ComponentSum(colors, i), n) <= 255
      {
        SumInRange(colors, i);
        DivBelow256(ComponentSum(colors, i), n);
      }
    }
  }

  lemma MulDiv(n: int, c: int)
    requires 0 < n && 0 <= c
    ensures (n * c) / n == c
  {
    var q, r := (n * c) / n, (n * c) % n;
    assert n * c == q * n + r && 0 <= r < n;
    assert n * (c - q) == r;
    SmallMultiple(n, c - q);
  }

  /** The only multiple of n in 0..n-1 is 0 * n. */
  lemma SmallMultiple(n: int, d: int)
    requires 0 < n && 0 <= n * d < n
    ensures d == 0
  {
  }

  lemma DivBelow256(s: int, n: int)
    requires 0 < n && 0 <= s <= 255 * n
    ensures 0 <= s / n <= 255
  {
  }
}
