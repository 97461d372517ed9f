/** The "Top Correct Score Predictions" table: the five most likely scores of
    the grid, most likely first (`sort_values("Probability",
    ascending=False).head(5)`). */
module Ranker {
  import opened JointScoreModel

  /** How many scores the table shows. */
  const TopScoreCount: nat := 5

  /** Whether no index occurs twice. */
  ghost predicate Distinct(s: seq<nat>)
  {
    forall a, b :: 0 <= a < b < |s| ==> s[a] != s[b]
  }

  /** Whether every index points into `cells`. */
  ghost predicate InRange(cells: seq<ScoreCell>, s: seq<nat>)
  {
    forall t :: 0 <= t < |s| ==> s[t] < |cells|
  }

  /** Whether the picked cells come in non-increasing probability order. */
  ghost predicate NonIncreasing(cells: seq<ScoreCell>, picked: seq<nat>)
    requires InRange(cells, picked)
  {
    forall a, b :: 0 <= a < b < |picked| ==> cells[picked[a]].probability >= cells[picked[b]].probability
  }

  /** Whether no cell among `rest` is more likely than a picked one. */
  ghost predicate Dominates(cells: seq<ScoreCell>, picked: seq<nat>, rest: seq<nat>)
    requires InRange(cells, picked) && InRange(cells, rest)
  {
    forall r, t :: 0 <= r < |rest| && 0 <= t < |picked| ==> cells[rest[r]].probability <= cells[picked[t]].probability
  }

  /** The state of the selection: every index of `cells` is either picked or
      still to choose from, never both and never twice, the picked ones are
      in order and none left over beats them. */
  ghost predicate Selecting(cells: seq<ScoreCell>, picked: seq<nat>, rest: seq<nat>)
  {
    && |picked| + |rest| == |cells|
    && InRange(cells, picked) && InRange(cells, rest)
    && Distinct(picked) && Distinct(rest)
    && (forall t, r :: 0 <= t < |picked| && 0 <= r < |rest| ==> picked[t] != rest[r])
    && (forall i :: 0 <= i < |cells| ==> i in picked || i in rest)
    && NonIncreasing(cells, picked)
    && Dominates(cells, picked, rest)
  }

  /** The indices 0, 1, ..., n - 1 in order. */
  function Indices(n: nat): (s: seq<nat>)
    ensures |s| == n
    ensures forall i :: 0 <= i < n ==> s[i] == i
  {
    if n == 0 then [] else Indices(n - 1) + [n - 1]
  }

  /** `s` without its element at position `m`. */
  function Remove(s: seq<nat>, m: nat): (r: seq<nat>)
    requires m < |s|
    ensures |r| == |s| - 1
  {
    s[..m] + s[m + 1..]
  }

  /** With no duplicates, removing position `m` removes exactly `s[m]`. */
  lemma {:induction false} RemoveMembers(s: seq<nat>, m: nat)
    requires m < |s| && Distinct(s)
    ensures Distinct(Remove(s, m))
    ensures forall x :: x in Remove(s, m) <==> x in s && x != s[m]
  {
    var r := Remove(s, m);
    forall x | x in s && x != s[m]
      ensures x in r
    {
      var a :| 0 <= a < |s| && s[a] == x;
      if a < m {
        assert r[a] == x;
      } else {
        assert r[a - 1] == x;
      }
    }
    forall a, b | 0 <= a < b < |r|
      ensures r[a] != r[b]
    {
      var a', b' := if a < m then a else a + 1, if b < m then b else b + 1;
      assert r[a] == s[a'] && r[b] == s[b'];
    }
    forall x | x in r
      ensures x in s && x != s[m]
    {
      var a :| 0 <= a < |r| && r[a] == x;
      var a' := if a < m then a else a + 1;
      assert r[a] == s[a'];
    }
  }

  /** At the start nothing is picked and every index is still to choose from. */
  lemma {:induction false} SelectingInitially(cells: seq<ScoreCell>)
    ensures Selecting(cells, [], Indices(|cells|))
  {
    var rest := Indices(|cells|);
    forall i | 0 <= i < |cells|
      ensures i in rest
    {
      assert rest[i] == i;
    }
  }

  /** Moving a most likely remaining index from `rest` to the end of `picked`
      keeps the selection state. */
  lemma {:induction false} SelectingStep(cells: seq<ScoreCell>, picked: seq<nat>, rest: seq<nat>, m: nat)
    requires Selecting(cells, picked, rest)
    requires m < |rest|
    requires forall r :: 0 <= r < |rest| ==> cells[rest[r]].probability <= cells[rest[m]].probability
    ensures Selecting(cells, picked + [rest[m]], Remove(rest, m))
  {
    var best := rest[m];
    var picked', rest' := picked + [best], Remove(rest, m);
    RemoveMembers(rest, m);
    forall r | 0 <= r < |rest'|
      ensures rest'[r] == rest[if r < m then r else r + 1]
    {
    }
    forall i | 0 <= i < |cells|
      ensures i in picked' || i in rest'
    {
      if i !in picked {
        assert i in rest;
      }
    }
  }

  /** The position in `rest` of the first most likely index. */
  method FirstMax(cells: seq<ScoreCell>, rest: seq<nat>) returns (m: nat)
    requires |rest| > 0 && InRange(cells, rest)
    ensures m < |rest|
    ensures forall r :: 0 <= r < |rest| ==> cells[rest[r]].probability <= cells[rest[m]].probability
    ensures forall a :: 0 <= a < m ==> cells[rest[a]].probability < cells[rest[m]].probability
  {
    m := 0;
    var a := 1;
    while a < |rest|
      invariant 1 <= a <= |rest| && m < a
      invariant forall b :: 0 <= b < a ==> cells[rest[b]].probability <= cells[rest[m]].probability
      invariant forall b :: 0 <= b < m ==> cells[rest[b]].probability < cells[rest[m]].probability
    {
      if cells[rest[a]].probability > cells[rest[m]].probability {
        m := a;
      }
      a := a + 1;
    }
  }

  /** The cells at the given indices, in that order. */
  function Pick(cells: seq<ScoreCell>, picked: seq<nat>): (top: seq<ScoreCell>)
    requires InRange(cells, picked)
    ensures |top| == |picked|
    ensures forall t :: 0 <= t < |picked| ==> top[t] == cells[picked[t]]
  {
    if |picked| == 0 then [] else Pick(cells, picked[..|picked| - 1]) + [cells[picked[|picked| - 1]]]
  }

  /** The `k` most likely cells, most likely first, with the positions they
      came from: `min(k, |cells|)` distinct cells in non-increasing order, and
      every cell left out is at most as likely as every cell shown. */
  method TopScores(cells: seq<ScoreCell>, k: nat) returns (picked: seq<nat>, top: seq<ScoreCell>)
    ensures |picked| == if k < |cells| then k else |cells|
    ensures forall t :: 0 <= t < |picked| ==> picked[t] < |cells|
    ensures forall a, b :: 0 <= a < b < |picked| ==> picked[a] != picked[b]
    ensures |top| == |picked| && forall t :: 0 <= t < |picked| ==> top[t] == cells[picked[t]]
    ensures forall a, b :: 0 <= a < b < |top| ==> top[a].probability >= top[b].probability
    ensures forall i, t :: 0 <= i < |cells| && i !in picked && 0 <= t < |top| ==>
      cells[i].probability <= top[t].probability
  {
    picked := [];
    var rest := Indices(|cells|);
    SelectingInitially(cells);
    while |picked| < k && |rest| > 0
      invariant |picked| <= k
      invariant Selecting(cells, picked, rest)
      decreases |rest|
    {
      var m := FirstMax(cells, rest);
      SelectingStep(cells, picked, rest, m);
      picked, rest := picked + [rest[m]], Remove(rest, m);
    }
    top := Pick(cells, picked);
    forall i, t | 0 <= i < |cells| && i !in picked && 0 <= t < |top|
      ensures cells[i].probability <= top[t].probability
    {
      var r :| 0 <= r < |rest| && rest[r] == i;
    }
  }

  /** Whether `top` lists the cells of `cells` at the positions `picked`. */
  ghost predicate PicksOf(cells: seq<ScoreCell>, picked: seq<nat>, top: seq<ScoreCell>)
  {
    && InRange(cells, picked) && Distinct(picked)
    && |top| == |picked| && forall t :: 0 <= t < |picked| ==> top[t] == cells[picked[t]]
  }

  /** When the last cell is picked at position `m`, the other picks are picks
      of the cells before it. */
  lemma {:induction false} PicksWithoutLast(cells: seq<ScoreCell>, picked: seq<nat>, top: seq<ScoreCell>, m: nat)
    requires PicksOf(cells, picked, top) && |cells| > 0
    requires m < |picked| && picked[m] == |cells| - 1
    ensures PicksOf(cells[..|cells| - 1], Remove(picked, m), top[..m] + top[m + 1..])
  {
    var n := |cells| - 1;
    var picked', top' := Remove(picked, m), top[..m] + top[m + 1..];
    RemoveMembers(picked, m);
    forall t | 0 <= t < |picked'|
      ensures picked'[t] < n && top'[t] == cells[..n][picked'[t]]
    {
      var u := if t < m then t else t + 1;
      assert picked'[t] == picked[u] && top'[t] == top[u];
      assert picked'[t] in picked';
    }
  }

  /** When the last cell is not picked, the picks are picks of the cells
      before it. */
  lemma {:induction false} PicksBeforeLast(cells: seq<ScoreCell>, picked: seq<nat>, top: seq<ScoreCell>)
    requires PicksOf(cells, picked, top) && |cells| > 0
    requires |cells| - 1 !in picked
    ensures PicksOf(cells[..|cells| - 1], picked, top)
  {
    forall t | 0 <= t < |picked|
      ensures picked[t] < |cells| - 1
    {
      assert picked[t] in picked;
    }
  }

  /** Cells taken at distinct positions of `cells` are a sub-multiset of
      `cells`: no cell is shown more often than it occurs. */
  lemma {:induction false} PickedSubMultiset(cells: seq<ScoreCell>, picked: seq<nat>, top: seq<ScoreCell>)
    requires PicksOf(cells, picked, top)
    ensures multiset(top) <= multiset(cells)
    decreases |cells|
  {
    if |cells| > 0 {
      var n := |cells| - 1;
      assert cells == cells[..n] + [cells[n]];
      if n in picked {
        var m :| 0 <= m < |picked| && picked[m] == n;
        PicksWithoutLast(cells, picked, top, m);
        PickedSubMultiset(cells[..n], Remove(picked, m), top[..m] + top[m + 1..]);
        assert top == top[..m] + [top[m]] + top[m + 1..];
      } else {
        PicksBeforeLast(cells, picked, top);
        PickedSubMultiset(cells[..n], picked, top);
      }
    }
  }

  /** The table of the five most likely scores: as many as there are, at most
      five, each taken from its own row of `cells`, most likely first, and
      none left out more likely than one shown. */
  method TopCorrectScores(cells: seq<ScoreCell>) returns (top: seq<ScoreCell>)
    ensures |top| == if TopScoreCount < |cells| then TopScoreCount else |cells|
    ensures multiset(top) <= multiset(cells)
    ensures (forall a, b :: 0 <= a < b < |cells| ==> cells[a] != cells[b]) ==>
      forall a, b :: 0 <= a < b < |top| ==> top[a] != top[b]
    ensures forall a, b :: 0 <= a < b < |top| ==> top[a].probability >= top[b].probability
    ensures forall c, d :: c in cells && c !in top && d in top ==> c.probability <= d.probability
  {
    var picked;
    picked, top := TopScores(cells, TopScoreCount);
    PickedSubMultiset(cells, picked, top);
    forall c, d | c in cells && c !in top && d in top
      ensures c.probability <= d.probability
    {
      var i :| 0 <= i < |cells| && cells[i] == c;
      var t :| 0 <= t < |top| && top[t] == d;
      forall u | 0 <= u < |picked|
        ensures picked[u] != i
      {
        assert top[u] in top;
      }
    }
  }
}
