/** The seven labels of the classifier and the lookup tables the components
    keep for them: a colour per label and an emoji per label. */
module Emotions {
  import opened JsValues

  /** Labels in the order of the classifier's output vector. */
  const Labels: seq<string> := ["Angry", "Disgust", "Fear", "Happy", "Sad", "Surprise", "Neutral"]

  /** The `emotionColors` table shared by the components. */
  const Palette: map<string, string> := map[
    "Angry" := "#ef4444",
    "Disgust" := "#22c55e",
    "Fear" := "#8b5cf6",
    "Happy" := "#fbbf24",
    "Sad" := "#3b82f6",
    "Surprise" := "#f97316",
    "Neutral" := "#6b7280"
  ]

  /** Colour used for a label the table does not know. */
  const FallbackColor: string := "#6b7280"

  /** The `emotionEmojis` table shared by the components. */
  const Emojis: map<string, string> := map[
    "Angry" := "\U{1F620}",
    "Disgust" := "\U{1F922}",
    "Fear" := "\U{1F628}",
    "Happy" := "\U{1F60A}",
    "Sad" := "\U{1F622}",
    "Surprise" := "\U{1F632}",
    "Neutral" := "\U{1F610}"
  ]

  /** The robot face shown for an emotion without an emoji. */
  const FallbackEmoji: string := "\U{1F916}"

  /** `emotionColors[e] || '#6b7280'`: every table entry is a non-empty string,
      so the fallback is taken exactly for labels outside the table. */
  function ColorOf(emotion: string): (r: string)
    ensures emotion in Palette ==> r == Palette[emotion]
    ensures emotion !in Palette ==> r == FallbackColor
  {
    OrString(if emotion in Palette then Some(Palette[emotion]) else None, FallbackColor)
  }

  /** `emotionEmojis[e]` without a fallback: `None` renders as nothing. */
  function EmojiOf(emotion: string): (r: Option<string>)
    ensures r.Some? <==> emotion in Emojis
    ensures r.Some? ==> r.value == Emojis[emotion]
  {
    if emotion in Emojis then Some(Emojis[emotion]) else None
  }

  /** Both tables are keyed by exactly the classifier's labels. */
  lemma TablesCoverLabels()
    ensures forall l :: l in Labels ==> l in Palette && l in Emojis
    ensures forall l :: l in Palette ==> l in Labels
    ensures Emojis.Keys == Palette.Keys
  {
  }

  /** The seven labels get seven different colours. */
  lemma LabelColorsDistinct(i: nat, j: nat)
    requires i < j < |Labels|
    ensures ColorOf(Labels[i]) != ColorOf(Labels[j])
  {
  }

  /** The colour of "Neutral" is the fallback colour, so a border drawn for an
      unknown label cannot be told apart from a neutral one. */
  lemma NeutralLooksUnknown(other: string)
    requires other !in Palette
    ensures ColorOf("Neutral") == ColorOf(other)
  {
  }
}
