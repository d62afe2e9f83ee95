/** Python's `itertools.groupby(iterable, key)`: it cuts the input into the
    maximal runs of consecutive elements with equal keys and yields each run
    with its key. It neither sorts nor merges runs that are not adjacent.
    Every `groupby` of the archive keys on one field of a date, so the model
    takes the field in place of the key function. */
module Grouping {
  import opened Dates

  /** One `(key, group)` pair of what `groupby` yields. */
  datatype Group = Group(key: int, items: seq<Date>)

  /** The elements of all groups in order. */
  function Concat(gs: seq<Group>): seq<Date> {
    if gs == [] then [] else gs[0].items + Concat(gs[1..])
  }

  /** Length of the maximal run at the front of `s`: every element before it
      shares the first element's key, the element at it (if any) does not. */
  function RunLength(s: seq<Date>, f: Field): (n: nat)
    requires |s| > 0
    ensures 1 <= n <= |s|
    ensures forall i :: 0 <= i < n ==> Key(f, s[i]) == Key(f, s[0])
    ensures n < |s| ==> Key(f, s[n]) != Key(f, s[0])
    decreases |s|
  {
    if |s| == 1 || Key(f, s[1]) != Key(f, s[0]) then 1 else 1 + RunLength(s[1..], f)
  }

  /** `groupby(s, key)` as a list of `(key, run)` pairs. */
  function GroupBy(s: seq<Date>, f: Field): seq<Group>
    decreases |s|
  {
    if s == [] then []
    else
      var n := RunLength(s, f);
      [Group(Key(f, s[0]), s[..n])] + GroupBy(s[n..], f)
  }

  /** One step of `groupby`: the first run, then the runs of what follows it. */
  lemma GroupByStep(s: seq<Date>, f: Field)
    requires s != []
    ensures var n := RunLength(s, f); var r := GroupBy(s, f); var rest := GroupBy(s[n..], f);
      && |r| == 1 + |rest|
      && r[0] == Group(Key(f, s[0]), s[..n])
      && r[1..] == rest
      && forall i :: 0 < i < |r| ==> r[i] == rest[i - 1]
  {
  }

  /** The first run is determined by its length alone: any `m` with the run
      properties is the run length. */
  lemma RunLengthUnique(s: seq<Date>, f: Field, m: nat)
    requires 1 <= m <= |s|
    requires forall i :: 0 <= i < m ==> Key(f, s[i]) == Key(f, s[0])
    requires m < |s| ==> Key(f, s[m]) != Key(f, s[0])
    ensures RunLength(s, f) == m
  {
  }

  /** No run is empty and every element of a run has the run's key; there are
      no runs exactly when the input is empty, and the first run carries the
      key of the first element. */
  lemma {:induction false} GroupByRuns(s: seq<Date>, f: Field)
    ensures var r := GroupBy(s, f); (r == []) == (s == [])
    ensures var r := GroupBy(s, f); r != [] ==> r[0].key == Key(f, s[0])
    ensures var r := GroupBy(s, f);
      forall i :: 0 <= i < |r| ==> |r[i].items| > 0
    ensures var r := GroupBy(s, f);
      forall i, j :: 0 <= i < |r| && 0 <= j < |r[i].items| ==> Key(f, r[i].items[j]) == r[i].key
    decreases |s|
  {
    if s != [] {
      GroupByStep(s, f);
      GroupByRuns(s[RunLength(s, f)..], f);
    }
  }

  /** The runs are maximal: neighbouring runs have different keys. */
  lemma {:induction false} GroupByMaximal(s: seq<Date>, f: Field)
    ensures var r := GroupBy(s, f);
      forall i :: 0 <= i < |r| - 1 ==> r[i].key != r[i + 1].key
    decreases |s|
  {
    if s != [] {
      var n := RunLength(s, f);
      GroupByStep(s, f);
      GroupByMaximal(s[n..], f);
      GroupByRuns(s[n..], f);
    }
  }

  /** Concatenating the runs gives back the input. */
  lemma {:induction false} GroupByConcat(s: seq<Date>, f: Field)
    ensures Concat(GroupBy(s, f)) == s
    decreases |s|
  {
    if s != [] {
      var n := RunLength(s, f);
      GroupByStep(s, f);
      GroupByConcat(s[n..], f);
      ConcatFirst(GroupBy(s, f), GroupBy(s[n..], f), s[..n], s[n..]);
      SliceJoin(s, n);
    }
  }

  /** Cutting a sequence in two and joining the pieces gives it back. */
  lemma SliceJoin(s: seq<Date>, n: nat)
    requires n <= |s|
    ensures s[..n] + s[n..] == s
  {
  }

  /** The concatenation of groups is the first group's elements followed by
      the concatenation of the others. */
  lemma ConcatFirst(r: seq<Group>, rest: seq<Group>, a: seq<Date>, b: seq<Date>)
    requires r != [] && r[1..] == rest && r[0].items == a && Concat(rest) == b
    ensures Concat(r) == a + b
  {
  }

  /** The concatenation of groups starts with the first group's elements. */
  lemma ConcatStep(gs: seq<Group>)
    requires gs != []
    ensures Concat(gs) == gs[0].items + Concat(gs[1..])
  {
  }

  /** Grouping a run followed by input that starts with another key yields
      that run, then the groups of the rest. */
  lemma GroupByPrepend(xs: seq<Date>, t: seq<Date>, f: Field)
    requires xs != []
    requires forall i :: 0 <= i < |xs| ==> Key(f, xs[i]) == Key(f, xs[0])
    requires t != [] ==> Key(f, t[0]) != Key(f, xs[0])
    ensures GroupBy(xs + t, f) == [Group(Key(f, xs[0]), xs)] + GroupBy(t, f)
  {
    var s := xs + t;
    var m := |xs|;
    assert forall i :: 0 <= i < m ==> s[i] == xs[i];
    assert m < |s| ==> s[m] == t[0];
    RunLengthUnique(s, f, m);
    assert s[..m] == xs && s[m..] == t;
  }

  /** The grouping is canonical: regrouping the concatenation of runs that
      are non-empty, agree with their keys and differ from their neighbours
      gives back exactly those runs. */
  lemma {:induction false} GroupByOfConcat(gs: seq<Group>, f: Field)
    requires forall i :: 0 <= i < |gs| ==> |gs[i].items| > 0
    requires forall i, j :: 0 <= i < |gs| && 0 <= j < |gs[i].items| ==> Key(f, gs[i].items[j]) == gs[i].key
    requires forall i :: 0 <= i < |gs| - 1 ==> gs[i].key != gs[i + 1].key
    ensures GroupBy(Concat(gs), f) == gs
    decreases |gs|
  {
    if gs != [] {
      var t := Concat(gs[1..]);
      ConcatStep(gs);
      GroupByOfConcat(gs[1..], f);
      if gs[1..] != [] {
        ConcatStep(gs[1..]);
        assert t[0] == gs[1].items[0];
      }
      GroupByPrepend(gs[0].items, t, f);
      assert [gs[0]] + gs[1..] == gs;
    }
  }

  /** Run `k` is the piece of the input that starts at `lo`. */
  lemma {:induction false} GroupByPiece(s: seq<Date>, f: Field, k: nat) returns (lo: nat)
    requires k < |GroupBy(s, f)|
    ensures lo + |GroupBy(s, f)[k].items| <= |s|
    ensures forall j :: 0 <= j < |GroupBy(s, f)[k].items| ==> GroupBy(s, f)[k].items[j] == s[lo + j]
    decreases |s|
  {
    GroupByStep(s, f);
    var n := RunLength(s, f);
    if k == 0 {
      lo := 0;
    } else {
      var lo' := GroupByPiece(s[n..], f, k - 1);
      lo := PieceOfTail(s, f, k, lo');
    }
  }

  /** Moves a piece of the input after the first run to the whole input. */
  lemma PieceOfTail(s: seq<Date>, f: Field, k: nat, lo': nat) returns (lo: nat)
    requires s != [] && 0 < k < |GroupBy(s, f)|
    requires GroupBy(s, f)[k] == GroupBy(s[RunLength(s, f)..], f)[k - 1]
    requires lo' + |GroupBy(s, f)[k].items| <= |s[RunLength(s, f)..]|
    requires forall j :: 0 <= j < |GroupBy(s, f)[k].items| ==>
      GroupBy(s, f)[k].items[j] == s[RunLength(s, f)..][lo' + j]
    ensures lo == RunLength(s, f) + lo'
    ensures lo + |GroupBy(s, f)[k].items| <= |s|
    ensures forall j :: 0 <= j < |GroupBy(s, f)[k].items| ==> GroupBy(s, f)[k].items[j] == s[lo + j]
  {
    lo := RunLength(s, f) + lo';
  }

  /** Every run is a contiguous piece of the input, so input listed newest
      first is listed newest first within each run. */
  lemma GroupByKeepsOrder(s: seq<Date>, f: Field, k: nat)
    requires SortedDescending(s)
    requires k < |GroupBy(s, f)|
    ensures SortedDescending(GroupBy(s, f)[k].items)
  {
    var lo := GroupByPiece(s, f, k);
    var g := GroupBy(s, f)[k];
    forall i, j | 0 <= i < j < |g.items| ensures DateLe(g.items[j], g.items[i]) {
      assert g.items[i] == s[lo + i] && g.items[j] == s[lo + j];
    }
  }

  /** A suffix of input whose key never increases has a key that never
      increases. */
  lemma SuffixNonincreasing(s: seq<Date>, f: Field, n: nat)
    requires n <= |s|
    requires forall i, j :: 0 <= i < j < |s| ==> Key(f, s[i]) >= Key(f, s[j])
    ensures var t := s[n..]; forall i, j :: 0 <= i < j < |t| ==> Key(f, t[i]) >= Key(f, t[j])
  {
    var t := s[n..];
    forall i, j | 0 <= i < j < |t| ensures Key(f, t[i]) >= Key(f, t[j]) {
      assert t[i] == s[n + i] && t[j] == s[n + j];
    }
  }

  /** On input whose key never increases, the runs' keys strictly decrease,
      so each key appears in exactly one run. */
  lemma {:induction false} GroupByDescending(s: seq<Date>, f: Field)
    requires forall i, j :: 0 <= i < j < |s| ==> Key(f, s[i]) >= Key(f, s[j])
    ensures forall i, j :: 0 <= i < j < |GroupBy(s, f)| ==> GroupBy(s, f)[i].key > GroupBy(s, f)[j].key
    decreases |s|
  {
    if s != [] {
      var n := RunLength(s, f);
      SuffixNonincreasing(s, f, n);
      GroupByDescending(s[n..], f);
      GroupByStep(s, f);
      GroupByRuns(s[n..], f);
      DescendingStep(GroupBy(s, f), GroupBy(s[n..], f));
    }
  }

  /** A first key above the head of strictly decreasing rest keys keeps all
      keys strictly decreasing. */
  lemma DescendingStep(r: seq<Group>, rest: seq<Group>)
    requires |r| == 1 + |rest|
    requires forall i :: 0 < i < |r| ==> r[i] == rest[i - 1]
    requires rest != [] ==> r[0].key > rest[0].key
    requires forall i, j :: 0 <= i < j < |rest| ==> rest[i].key > rest[j].key
    ensures forall i, j :: 0 <= i < j < |r| ==> r[i].key > r[j].key
  {
    forall i, j | 0 <= i < j < |r| ensures r[i].key > r[j].key {
      if i == 0 && j > 1 {
        assert rest[0].key > rest[j - 1].key;
      }
    }
  }

  /** Two sequences of the same length that agree at every index are equal. */
  lemma SeqEqual<T>(a: seq<T>, b: seq<T>)
    requires |a| == |b|
    requires forall i :: 0 <= i < |a| ==> a[i] == b[i]
    ensures a == b
  {
  }

  /** Joining two sequences whose elements all have key `v` gives one whose
      elements all have key `v`. */
  lemma AppendKeys(a: seq<Date>, b: seq<Date>, f: Field, v: int)
    requires forall i :: 0 <= i < |a| ==> Key(f, a[i]) == v
    requires forall i :: 0 <= i < |b| ==> Key(f, b[i]) == v
    ensures forall i :: 0 <= i < |a + b| ==> Key(f, (a + b)[i]) == v
  {
  }

  /** If every element of every group has key `v`, so has every element of
      the concatenation. */
  lemma {:induction false} ConcatKeys(gs: seq<Group>, f: Field, v: int)
    requires forall i, j :: 0 <= i < |gs| && 0 <= j < |gs[i].items| ==> Key(f, gs[i].items[j]) == v
    ensures forall j :: 0 <= j < |Concat(gs)| ==> Key(f, Concat(gs)[j]) == v
    decreases |gs|
  {
    if gs != [] {
      ConcatStep(gs);
      ConcatKeys(gs[1..], f, v);
      AppendKeys(gs[0].items, Concat(gs[1..]), f, v);
    }
  }

  /** Every element of a group is an element of the concatenation. */
  lemma {:induction false} ConcatHas(gs: seq<Group>, i: nat)
    requires i < |gs|
    ensures forall x :: x in gs[i].items ==> x in Concat(gs)
    decreases |gs|
  {
    if i > 0 {
      ConcatHas(gs[1..], i - 1);
    }
  }
}
