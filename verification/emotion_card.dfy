/** The EmotionCard component: a loading view, a "ready" view, or the result
    with its emoji, confidence bar and the scores of every emotion. */
module EmotionCard {
  import opened JsValues
  import opened Ranking
  import Emotions
  import AnalyticsPanel

  /** What `{confidence && (...)}` renders: nothing for null, the bar for a
      truthy number, and for 0 the falsy operand itself, which React prints
      as the text "0". */
  datatype ConfidenceSlot = Nothing | ZeroText | Bar(percent: real)

  datatype Card =
    | Analyzing
    | Ready
    | Result(
        emoji: string,
        emotion: string,
        confidence: ConfidenceSlot,
        allEmotions: Option<seq<Entry>>)

  /** `confidence && <bar>` as React renders it. */
  function ConfidenceSlotOf(confidence: Option<real>): (c: ConfidenceSlot)
    ensures c.Bar? <==> TruthyNumber(confidence)
    ensures c.Bar? ==> confidence == Some(c.percent)
    ensures c == ZeroText <==> confidence == Some(0.0)
    ensures c == Nothing <==> confidence.None?
  {
    match confidence
    case None => Nothing
    case Some(p) => if p == 0.0 then ZeroText else Bar(p)
  }

  /** `emotionEmojis[emotion] || '🤖'`. */
  function HeadlineEmoji(emotion: string): (r: string)
    ensures emotion in Emotions.Emojis ==> r == Emotions.Emojis[emotion]
    ensures emotion !in Emotions.Emojis ==> r == Emotions.FallbackEmoji
  {
    OrString(Emotions.EmojiOf(emotion), Emotions.FallbackEmoji)
  }

  /** The robot face is shown exactly for an emotion outside the seven labels:
      no tabled emoji is the robot face. */
  lemma HeadlineEmojiFallsBack(emotion: string)
    ensures HeadlineEmoji(emotion) == Emotions.FallbackEmoji <==> emotion !in Emotions.Labels
  {
    Emotions.TablesCoverLabels();
  }

  /** Loading wins over everything, then an empty emotion gives the ready
      view, and otherwise the result is shown: the bar only for a truthy
      confidence, and every score, highest first, when there are any. */
  function Render(emotion: Option<string>, confidence: Option<real>, allEmotions: Option<seq<Entry>>, isLoading: bool): (c: Card)
    ensures isLoading ==> c == Analyzing
    ensures c == Ready <==> !isLoading && !TruthyString(emotion)
    ensures c.Result? <==> !isLoading && TruthyString(emotion)
    ensures c.Result? ==> c.emotion == emotion.value && c.emoji == HeadlineEmoji(emotion.value)
    ensures c.Result? ==> (c.confidence.Bar? <==> TruthyNumber(confidence))
    ensures c.Result? && c.confidence.Bar? ==> confidence == Some(c.confidence.percent)
    ensures c.Result? ==> (c.confidence == ZeroText <==> confidence == Some(0.0))
    ensures c.Result? ==> (c.allEmotions.Some? <==> allEmotions.Some? && |allEmotions.value| > 0)
    ensures c.Result? && c.allEmotions.Some? ==>
      && NonIncreasing(c.allEmotions.value)
      && multiset(c.allEmotions.value) == multiset(allEmotions.value)
      && forall v :: WithValue(c.allEmotions.value, v) == WithValue(allEmotions.value, v)
  {
    if isLoading then Analyzing
    else if !TruthyString(emotion) then Ready
    else
      var all :=
        if allEmotions.Some? && |allEmotions.value| > 0 then Some(SortDesc(allEmotions.value)) else None;
      assert all.Some? ==> forall v :: WithValue(all.value, v) == WithValue(allEmotions.value, v) by {
        if all.Some? {
          forall v ensures WithValue(all.value, v) == WithValue(allEmotions.value, v) {
            SortDescStable(allEmotions.value, v);
          }
        }
      }
      Result(HeadlineEmoji(emotion.value), emotion.value, ConfidenceSlotOf(confidence), all)
  }

  /** Unlike the session distribution, the card drops no entry: a score of 0
      is listed on the card but not in the distribution. */
  lemma CardKeepsZeroScores(emotion: string, confidence: Option<real>, scores: seq<Entry>, i: nat)
    requires emotion != ""
    requires i < |scores| && scores[i].value == 0.0
    ensures var c := Render(Some(emotion), confidence, Some(scores), false);
      c.Result? && c.allEmotions.Some? && scores[i] in c.allEmotions.value
    ensures scores[i] !in AnalyticsPanel.Distribution(scores)
  {
    var c := Render(Some(emotion), confidence, Some(scores), false);
    assert scores[i] in multiset(scores);
    assert scores[i] in multiset(c.allEmotions.value);
  }
}
