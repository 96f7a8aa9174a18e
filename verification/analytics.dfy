/** The Analytics component: the session summary fetched from the server,
    shown as totals, the dominant emotion, the distribution of emotions over
    the session, and the most recent detections. */
module AnalyticsPanel {
  import opened JsValues
  import opened Ranking
  import Emotions

  datatype HistoryEntry = HistoryEntry(emotion: string, confidence: real)

  datatype SessionStats = SessionStats(
    durationMinutes: real,
    totalPredictions: int,
    emotionPercentages: Option<seq<Entry>>)

  /** The `analytics` prop; `session_stats` is an object, so present means truthy. */
  datatype Snapshot = Snapshot(
    sessionStats: Option<SessionStats>,
    dominantEmotion: Option<string>,
    recentHistory: Option<seq<HistoryEntry>>)

  datatype DominantPanel = DominantPanel(emotion: string, emoji: Option<string>)

  datatype View =
    | NoData
    | Dashboard(
        totalPredictions: int,
        durationMinutes: real,
        dominant: Option<DominantPanel>,
        distribution: Option<seq<Entry>>,
        recent: Option<seq<HistoryEntry>>)

  /** The emotion distribution list: the entries with a positive percentage,
      highest first, and entries with equal percentages in map order. */
  function Distribution(percentages: seq<Entry>): (r: seq<Entry>)
    ensures NonIncreasing(r)
    ensures forall x :: multiset(r)[x] == if x.value > 0.0 then multiset(percentages)[x] else 0
    ensures forall x :: x in r <==> x in percentages && x.value > 0.0
    ensures forall v :: v > 0.0 ==> WithValue(r, v) == WithValue(percentages, v)
    ensures forall v :: v <= 0.0 ==> WithValue(r, v) == []
  {
    KeepPositiveCounts(percentages);
    var r := SortDesc(KeepPositive(percentages));
    assert forall x :: x in r <==> x in multiset(r);
    assert forall x :: x in percentages <==> x in multiset(percentages);
    forall v
      ensures v > 0.0 ==> WithValue(r, v) == WithValue(percentages, v)
      ensures v <= 0.0 ==> WithValue(r, v) == []
    {
      SortDescStable(KeepPositive(percentages), v);
      if v > 0.0 {
        KeepPositiveWithValue(percentages, v);
      } else {
        NoneWithValue(KeepPositive(percentages), v);
      }
    }
    r
  }

  /** No entry of a list of positive entries scores `v <= 0`. */
  lemma {:induction false} NoneWithValue(s: seq<Entry>, v: real)
    requires v <= 0.0
    requires forall i :: 0 <= i < |s| ==> s[i].value > 0.0
    ensures WithValue(s, v) == []
    decreases |s|
  {
    if |s| > 0 {
      NoneWithValue(s[1..], v);
    }
  }

  /** The first index `slice(-n)` keeps: the last `n` entries, or all of them
      when there are fewer; `slice(-0)` is `slice(0)` and keeps everything. */
  function TailStart(len: nat, n: nat): (k: nat)
    ensures k <= len
    ensures n > 0 ==> len - k == (if n < len then n else len)
    ensures n == 0 ==> k == 0
  {
    if n == 0 || len < n then 0 else len - n
  }

  /** `Array.prototype.reverse` on a copy. */
  function Reverse<T>(s: seq<T>): (r: seq<T>)
    ensures |r| == |s|
    ensures forall i :: 0 <= i < |s| ==> r[i] == s[|s| - 1 - i]
  {
    if |s| == 0 then [] else Reverse(s[1..]) + [s[0]]
  }

  /** `recent_history.slice(-5).reverse()`: the last five entries at most,
      newest first. */
  function RecentActivity<T>(history: seq<T>): (r: seq<T>)
    ensures |r| == if |history| < 5 then |history| else 5
    ensures forall i :: 0 <= i < |r| ==> r[i] == history[|history| - 1 - i]
  {
    Reverse(history[TailStart(|history|, 5)..])
  }

  /** The newest detection is listed first, and it pushes the oldest of five
      off the list. */
  lemma RecentActivityPush<T>(history: seq<T>, e: T)
    ensures RecentActivity(history + [e])[0] == e
    ensures |history| >= 5 ==> RecentActivity(history + [e]) == [e] + RecentActivity(history)[..4]
  {
    var h := history + [e];
    assert h[|h| - 1] == e;
    if |history| >= 5 {
      var r := RecentActivity(h);
      var q := [e] + RecentActivity(history)[..4];
      assert |r| == |q|;
      forall i | 0 <= i < |r|
        ensures r[i] == q[i]
      {
        if i > 0 {
          assert r[i] == h[|h| - 1 - i] == history[|history| - 1 - (i - 1)];
        }
      }
    }
  }

  /** The whole panel. The no-data message is shown iff there is no snapshot
      or it has no session statistics; otherwise each section is shown under
      its own truthiness test. */
  function Render(analytics: Option<Snapshot>): (v: View)
    ensures v.NoData? <==> analytics.None? || analytics.value.sessionStats.None?
    ensures v.Dashboard? ==>
      var a := analytics.value;
      var stats := a.sessionStats.value;
      && v.totalPredictions == stats.totalPredictions
      && v.durationMinutes == stats.durationMinutes
      && (v.dominant.Some? <==> TruthyString(a.dominantEmotion))
      && (v.dominant.Some? ==> v.dominant.value.emotion == a.dominantEmotion.value)
      && (v.dominant.Some? ==> v.dominant.value.emoji == Emotions.EmojiOf(a.dominantEmotion.value))
      && (v.distribution.Some? <==> stats.emotionPercentages.Some? && |stats.emotionPercentages.value| > 0)
      && (v.distribution.Some? ==> v.distribution.value == Distribution(stats.emotionPercentages.value))
      && (v.recent.Some? <==> a.recentHistory.Some? && |a.recentHistory.value| > 0)
      && (v.recent.Some? ==> v.recent.value == RecentActivity(a.recentHistory.value))
  {
    if analytics.None? || analytics.value.sessionStats.None? then NoData
    else
      var a := analytics.value;
      var stats := a.sessionStats.value;
      var dominant :=
        if TruthyString(a.dominantEmotion)
        then Some(DominantPanel(a.dominantEmotion.value, Emotions.EmojiOf(a.dominantEmotion.value)))
        else None;
      var distribution :=
        if stats.emotionPercentages.Some? && |stats.emotionPercentages.value| > 0
        then Some(Distribution(stats.emotionPercentages.value))
        else None;
      var recent :=
        if a.recentHistory.Some? && |a.recentHistory.value| > 0
        then Some(RecentActivity(a.recentHistory.value))
        else None;
      Dashboard(stats.totalPredictions, stats.durationMinutes, dominant, distribution, recent)
  }

  /** A non-empty map whose percentages are all 0 still shows the distribution
      section, with an empty list. */
  lemma AllZeroShowsEmptyList(stats: SessionStats, dominant: Option<string>, history: Option<seq<HistoryEntry>>)
    requires stats.emotionPercentages.Some? && |stats.emotionPercentages.value| > 0
    requires forall i :: 0 <= i < |stats.emotionPercentages.value| ==> stats.emotionPercentages.value[i].value == 0.0
    ensures Render(Some(Snapshot(Some(stats), dominant, history))).distribution == Some([])
  {
    var p := stats.emotionPercentages.value;
    var d := Distribution(p);
    assert forall x :: x in p ==> x.value == 0.0;
    assert forall x :: x !in d;
  }
}
