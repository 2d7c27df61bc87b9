/**
 * The per-tier breakdown of a player page (`Helper.extract_battles_per_level`
 * and `Helper.calculate_level_sum`): one battle count per tier entry, read
 * from the entry's second-to-last child, and the 1-indexed weighted sum of
 * those counts from which the average tier is derived.
 */
module Tiers {
  import opened Common
  import opened Text
  import opened Html

  /**
   * A child of the tier container: a text node (the string itself) or an
   * element, given by the `str()` of each of its own children.
   */
  datatype TierNode = TextNode(text: string) | Element(children: seq<string>)

  /** The list comprehension that drops the bare line-break text nodes between entries. */
  function WithoutNewlines(nodes: seq<TierNode>): (r: seq<TierNode>)
    decreases |nodes|
  {
    if nodes == [] then []
    else
      var rest := WithoutNewlines(nodes[1..]);
      if nodes[0] == TextNode("\n") then rest else [nodes[0]] + rest
  }

  /** Exactly the nodes other than a bare line break are kept, and no more of them than there were. */
  lemma {:induction false} WithoutNewlinesKeeps(nodes: seq<TierNode>, x: TierNode)
    ensures |WithoutNewlines(nodes)| <= |nodes|
    ensures x in WithoutNewlines(nodes) <==> x in nodes && x != TextNode("\n")
    decreases |nodes|
  {
    if nodes != [] {
      WithoutNewlinesKeeps(nodes[1..], x);
      assert nodes == [nodes[0]] + nodes[1..];
    }
  }

  /**
   * The filter keeps order and multiplicity: it distributes over
   * concatenation, drops a single bare line break and keeps any other node.
   */
  lemma {:induction false} WithoutNewlinesConcat(xs: seq<TierNode>, ys: seq<TierNode>)
    ensures WithoutNewlines(xs + ys) == WithoutNewlines(xs) + WithoutNewlines(ys)
    ensures WithoutNewlines([TextNode("\n")]) == []
    ensures forall x :: x != TextNode("\n") ==> WithoutNewlines([x]) == [x]
    decreases |xs|
  {
    if xs != [] {
      assert (xs + ys)[0] == xs[0] && (xs + ys)[1..] == xs[1..] + ys;
      WithoutNewlinesConcat(xs[1..], ys);
    } else {
      assert xs + ys == ys;
    }
    forall x | x != TextNode("\n") ensures WithoutNewlines([x]) == [x] {
      assert [x][1..] == [];
    }
  }

  /**
   * The battle count of one tier entry: `int(clean_html(str(children[-2])))`.
   * A text node has no children, an element needs at least two, and the
   * cleaned text must be an integer.
   */
  function TierCount(node: TierNode): (r: Result<int>)
    ensures r.Err? ==> r.error == Malformed(TierBlock)
  {
    match node
    case TextNode(_) => Err(Malformed(TierBlock))
    case Element(children) =>
      if |children| < 2 then Err(Malformed(TierBlock))
      else
        var count := ParseInt(CleanHtml(children[|children| - 2]));
        if count.None? then Err(Malformed(TierBlock)) else Ok(count.value)
  }

  /** An entry whose second-to-last child cleans to the text of an integer yields that integer. */
  lemma TierCountOf(before: seq<string>, count: string, last: string, n: int)
    requires CleanHtml(count) == ShowInt(n)
    ensures TierCount(Element(before + [count, last])) == Ok(n)
  {
    var cs := before + [count, last];
    assert cs[|cs| - 2] == count;
    ParseShowInt(n);
  }

  /**
   * `extract_battles_per_level`: appends one count per entry, in order, and
   * fails at the first entry whose count cannot be read.
   */
  method ExtractBattlesPerLevel(items: seq<TierNode>) returns (r: Result<seq<int>>)
    ensures r == MapAll(items, TierCount)
    ensures r.Err? ==> r.error == Malformed(TierBlock)
  {
    var battles: seq<int> := [];
    var i := 0;
    while i < |items|
      invariant 0 <= i <= |items|
      invariant MapAll(items[..i], TierCount) == Ok(battles)
    {
      var count := TierCount(items[i]);
      MapAllStep(items, i, TierCount, battles);
      if count.Err? {
        return Err(count.error);
      }
      battles := battles + [count.value];
      i := i + 1;
    }
    assert items[..i] == items;
    return Ok(battles);
  }

  /** Σ i·xs[i-1] for i from 1: the last count weighs as much as the list is long. */
  function LevelSum(xs: seq<int>): int
    decreases |xs|
  {
    if xs == [] then 0 else LevelSum(xs[..|xs| - 1]) + |xs| * xs[|xs| - 1]
  }

  function Sum(xs: seq<int>): int
    decreases |xs|
  {
    if xs == [] then 0 else xs[0] + Sum(xs[1..])
  }

  /** The same weighted sum read from the front, with the first count weighing `w`. */
  function WeightedSum(xs: seq<int>, w: int): int
    decreases |xs|
  {
    if xs == [] then 0 else w * xs[0] + WeightedSum(xs[1..], w + 1)
  }

  /** Appending `x` to a list of length n adds (n + 1)·x. */
  lemma LevelSumSnoc(xs: seq<int>, x: int)
    ensures LevelSum(xs + [x]) == LevelSum(xs) + (|xs| + 1) * x
  {
    assert (xs + [x])[..|xs|] == xs;
  }

  /** Prepending `x` raises every existing weight by one and gives `x` weight 1. */
  lemma {:induction false} LevelSumCons(x: int, xs: seq<int>)
    ensures LevelSum([x] + xs) == x + Sum(xs) + LevelSum(xs)
    decreases |xs|
  {
    if xs == [] {
      assert [x] + xs == [x];
      assert [x][..0] == [];
    } else {
      var init, last := xs[..|xs| - 1], xs[|xs| - 1];
      var n := |init|;
      assert LevelSum([x] + xs) == LevelSum([x] + init) + (n + 2) * last by {
        assert [x] + xs == ([x] + init) + [last];
        LevelSumSnoc([x] + init, last);
      }
      assert LevelSum(xs) == LevelSum(init) + (n + 1) * last && Sum(xs) == Sum(init) + last by {
        assert init + [last] == xs;
        LevelSumSnoc(init, last);
        SumSnoc(init, last);
      }
      LevelSumCons(x, init);
      assert (n + 2) * last == last + (n + 1) * last;
    }
  }

  lemma {:induction false} SumSnoc(xs: seq<int>, x: int)
    ensures Sum(xs + [x]) == Sum(xs) + x
    decreases |xs|
  {
    if xs == [] {
      assert xs + [x] == [x];
    } else {
      assert (xs + [x])[1..] == xs[1..] + [x];
      SumSnoc(xs[1..], x);
    }
  }

  /** Reading from the back and reading from the front agree. */
  lemma {:induction false} WeightedSumIsLevelSum(xs: seq<int>, w: int)
    ensures WeightedSum(xs, w) == LevelSum(xs) + (w - 1) * Sum(xs)
    decreases |xs|
  {
    if xs != [] {
      var x, t := xs[0], xs[1..];
      WeightedSumIsLevelSum(t, w + 1);
      assert LevelSum(xs) == x + Sum(t) + LevelSum(t) by {
        LevelSumCons(x, t);
        assert [x] + t == xs;
      }
      WeighShift(w, x, Sum(t), LevelSum(t));
    }
  }

  /** The arithmetic of one inductive step of the front-to-back reading. */
  lemma WeighShift(w: int, x: int, s: int, l: int)
    ensures w * x + (l + w * s) == (x + s + l) + (w - 1) * (x + s)
  {
    assert (w - 1) * (x + s) == w * x + w * s - x - s;
  }

  /** With non-negative counts, every battle weighs between 1 and the number of tiers. */
  lemma {:induction false} LevelSumBounds(xs: seq<int>)
    requires forall i :: 0 <= i < |xs| ==> xs[i] >= 0
    ensures Sum(xs) <= LevelSum(xs) <= |xs| * Sum(xs)
    decreases |xs|
  {
    if xs != [] {
      var x, t := xs[0], xs[1..];
      LevelSumCons(x, t);
      assert [x] + t == xs;
      LevelSumBounds(t);
      SumNonNegative(t);
      WeighOneMore(x, Sum(t), LevelSum(t), |t|);
    }
  }

  /** The arithmetic of one inductive step of the upper bound. */
  lemma WeighOneMore(x: int, s: int, l: int, n: nat)
    requires x >= 0 && s >= 0 && l <= n * s
    ensures x + s + l <= (n + 1) * (x + s)
  {
    assert (n + 1) * (x + s) == n * x + x + n * s + s;
    assert n * x >= 0;
  }

  lemma {:induction false} SumNonNegative(xs: seq<int>)
    requires forall i :: 0 <= i < |xs| ==> xs[i] >= 0
    ensures Sum(xs) >= 0
    decreases |xs|
  {
    if xs != [] {
      SumNonNegative(xs[1..]);
    }
  }

  /** `calculate_level_sum`: the running total over the 1-indexed enumeration. */
  method CalculateLevelSum(levels: seq<int>) returns (total: int)
    ensures total == LevelSum(levels)
    ensures total == WeightedSum(levels, 1)
  {
    total := 0;
    var i := 0;
    while i < |levels|
      invariant 0 <= i <= |levels|
      invariant total == LevelSum(levels[..i])
    {
      LevelSumSnoc(levels[..i], levels[i]);
      assert levels[..i + 1] == levels[..i] + [levels[i]];
      total := total + (i + 1) * levels[i];
      i := i + 1;
    }
    assert levels[..i] == levels;
    WeightedSumIsLevelSum(levels, 1);
  }
}
