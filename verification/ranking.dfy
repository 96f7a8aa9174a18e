/** Entries of an `emotion -> score` object, in `Object.entries` order, and the
    two list transforms the panels apply to them: keeping the positive scores,
    and sorting with the comparator `(a, b) => b - a`. */
module Ranking {

  /** One `[name, value]` pair of `Object.entries`. */
  datatype Entry = Entry(name: string, value: real)

  /** Scores never increase along the list. */
  ghost predicate NonIncreasing(s: seq<Entry>) {
    forall i, j :: 0 <= i < j < |s| ==> s[i].value >= s[j].value
  }

  /** No entry of `t` scores above `v` when `t` holds only entries that do not. */
  lemma BoundedByContents(t: seq<Entry>, u: seq<Entry>, e: Entry, v: real)
    requires multiset(t) == multiset(u) + multiset{e}
    requires e.value <= v
    requires forall k :: 0 <= k < |u| ==> u[k].value <= v
    ensures forall k :: 0 <= k < |t| ==> t[k].value <= v
  {
    forall k | 0 <= k < |t|
      ensures t[k].value <= v
    {
      assert t[k] in multiset(t);
      if t[k] != e {
        assert t[k] in multiset(u);
      }
    }
  }

  /** Putting an entry that scores at least as much as every entry in front
      of a ranked list keeps it ranked. */
  lemma ConsRanked(x: Entry, t: seq<Entry>)
    requires NonIncreasing(t)
    requires forall k :: 0 <= k < |t| ==> t[k].value <= x.value
    ensures NonIncreasing([x] + t)
  {
    var r := [x] + t;
    forall i, j | 0 <= i < j < |r|
      ensures r[i].value >= r[j].value
    {
      assert r[j] == t[j - 1];
      if i > 0 {
        assert r[i] == t[i - 1];
      }
    }
  }

  /** Inserts `e` into a non-increasing list, in front of every entry whose
      score it equals or beats. */
  function Insert(e: Entry, s: seq<Entry>): (r: seq<Entry>)
    requires NonIncreasing(s)
    ensures NonIncreasing(r)
    ensures multiset(r) == multiset(s) + multiset{e}
  {
    if |s| == 0 || e.value >= s[0].value then
      ConsRanked(e, s);
      [e] + s
    else
      var t := Insert(e, s[1..]);
      BoundedByContents(t, s[1..], e, s[0].value);
      ConsRanked(s[0], t);
      assert s == [s[0]] + s[1..];
      [s[0]] + t
  }

  /** `Object.entries(m).sort(([,a], [,b]) => b - a)`: a stable sort by score,
      highest first. */
  function SortDesc(s: seq<Entry>): (r: seq<Entry>)
    ensures NonIncreasing(r)
    ensures multiset(r) == multiset(s)
  {
    if |s| == 0 then []
    else
      assert s == [s[0]] + s[1..];
      Insert(s[0], SortDesc(s[1..]))
  }

  /** `.filter(([, p]) => p > 0)`: the entries with a positive score, in order. */
  function KeepPositive(s: seq<Entry>): (r: seq<Entry>)
    ensures |r| <= |s|
    ensures forall i :: 0 <= i < |r| ==> r[i].value > 0.0
  {
    if |s| == 0 then []
    else (if s[0].value > 0.0 then [s[0]] else []) + KeepPositive(s[1..])
  }

  /** The filter keeps every positive entry as often as it occurs and drops
      every other. */
  lemma {:induction false} KeepPositiveCounts(s: seq<Entry>)
    ensures forall x :: multiset(KeepPositive(s))[x] == if x.value > 0.0 then multiset(s)[x] else 0
    decreases |s|
  {
    if |s| > 0 {
      KeepPositiveCounts(s[1..]);
      assert s == [s[0]] + s[1..];
    }
  }

  /** Sorting a list that is already ranked leaves it exactly as it is: equal
      scores keep their order. */
  lemma {:induction false} SortDescKeepsRanked(s: seq<Entry>)
    requires NonIncreasing(s)
    ensures SortDesc(s) == s
  {
    if |s| > 0 {
      SortDescKeepsRanked(s[1..]);
      assert SortDesc(s[1..]) == s[1..];
      if |s| > 1 {
        assert s[0].value >= s[1].value;
      }
      assert s == [s[0]] + s[1..];
    }
  }

  /** Sorting twice is sorting once. */
  lemma SortDescIdempotent(s: seq<Entry>)
    ensures SortDesc(SortDesc(s)) == SortDesc(s)
  {
    SortDescKeepsRanked(SortDesc(s));
  }

  /** The entries scoring exactly `v`, in their order in `s`. */
  function WithValue(s: seq<Entry>, v: real): (r: seq<Entry>)
    ensures forall i :: 0 <= i < |r| ==> r[i].value == v
  {
    if |s| == 0 then []
    else (if s[0].value == v then [s[0]] else []) + WithValue(s[1..], v)
  }

  lemma {:induction false} WithValueAppend(a: seq<Entry>, b: seq<Entry>, v: real)
    ensures WithValue(a + b, v) == WithValue(a, v) + WithValue(b, v)
    decreases |a|
  {
    if |a| > 0 {
      var head := if a[0].value == v then [a[0]] else [];
      calc {
        WithValue(a + b, v);
        { assert (a + b)[0] == a[0]; assert (a + b)[1..] == a[1..] + b; }
        head + WithValue(a[1..] + b, v);
        { WithValueAppend(a[1..], b, v); }
        head + (WithValue(a[1..], v) + WithValue(b, v));
        (head + WithValue(a[1..], v)) + WithValue(b, v);
      }
    } else {
      assert a + b == b;
    }
  }

  /** Insertion puts `e` in front of every entry with its score. */
  lemma {:induction false} InsertStable(e: Entry, s: seq<Entry>, v: real)
    requires NonIncreasing(s)
    ensures WithValue(Insert(e, s), v) == (if e.value == v then [e] else []) + WithValue(s, v)
    decreases |s|
  {
    var he := if e.value == v then [e] else [];
    if |s| == 0 || e.value >= s[0].value {
      calc {
        WithValue(Insert(e, s), v);
        WithValue([e] + s, v);
        { WithValueAppend([e], s, v); }
        WithValue([e], v) + WithValue(s, v);
      }
    } else {
      var t := Insert(e, s[1..]);
      var h0 := if s[0].value == v then [s[0]] else [];
      var rest := WithValue(s[1..], v);
      calc {
        WithValue(Insert(e, s), v);
        WithValue([s[0]] + t, v);
        { WithValueAppend([s[0]], t, v); }
        WithValue([s[0]], v) + WithValue(t, v);
        { InsertStable(e, s[1..], v); }
        h0 + (he + rest);
        { HeadsCommute(h0, he, rest); }
        he + (h0 + rest);
      }
    }
  }

  /** Two lists of which one is empty may be put in either order. */
  lemma HeadsCommute(a: seq<Entry>, b: seq<Entry>, c: seq<Entry>)
    requires a == [] || b == []
    ensures a + (b + c) == b + (a + c)
  {
    if a == [] {
      assert a + (b + c) == b + c;
      assert a + c == c;
    } else {
      assert b + c == c;
      assert b + (a + c) == a + c;
    }
  }

  /** The sort is stable: entries with equal scores keep their input order. */
  lemma {:induction false} SortDescStable(s: seq<Entry>, v: real)
    ensures WithValue(SortDesc(s), v) == WithValue(s, v)
    decreases |s|
  {
    if |s| > 0 {
      SortDescStable(s[1..], v);
      InsertStable(s[0], SortDesc(s[1..]), v);
      WithValueAppend([s[0]], s[1..], v);
      assert s == [s[0]] + s[1..];
    }
  }

  /** The filter keeps the order of the input: filtering a concatenation is
      concatenating the filtered parts. */
  lemma {:induction false} KeepPositiveAppend(a: seq<Entry>, b: seq<Entry>)
    ensures KeepPositive(a + b) == KeepPositive(a) + KeepPositive(b)
    decreases |a|
  {
    if |a| > 0 {
      var head := if a[0].value > 0.0 then [a[0]] else [];
      calc {
        KeepPositive(a + b);
        { assert (a + b)[0] == a[0]; assert (a + b)[1..] == a[1..] + b; }
        head + KeepPositive(a[1..] + b);
        { KeepPositiveAppend(a[1..], b); }
        head + (KeepPositive(a[1..]) + KeepPositive(b));
        (head + KeepPositive(a[1..])) + KeepPositive(b);
      }
    } else {
      assert a + b == b;
    }
  }

  /** For a positive score the filter drops none of the entries with it. */
  lemma {:induction false} KeepPositiveWithValue(s: seq<Entry>, v: real)
    requires v > 0.0
    ensures WithValue(KeepPositive(s), v) == WithValue(s, v)
    decreases |s|
  {
    if |s| > 0 {
      KeepPositiveWithValue(s[1..], v);
      var head := if s[0].value > 0.0 then [s[0]] else [];
      WithValueAppend(head, KeepPositive(s[1..]), v);
    }
  }
}
