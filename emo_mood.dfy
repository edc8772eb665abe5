/**
 * EMO's `Mood` enum: five cases with `String` raw values, `CaseIterable`, `Identifiable`,
 * and the `icon` and `color` shown by the mood picker.
 */
module EmoMood {
  import opened Wrappers

  datatype Mood = VeryHappy | Happy | Neutral | Sad | VerySad

  /** `Mood.allCases`, in declaration order. */
  const AllCases: seq<Mood> := [VeryHappy, Happy, Neutral, Sad, VerySad]

  function RawValue(m: Mood): string {
    match m
    case VeryHappy => "Very Happy"
    case Happy => "Happy"
    case Neutral => "Neutral"
    case Sad => "Sad"
    case VerySad => "Very Sad"
  }

  /** The synthesized `Mood(rawValue:)`: an exact, case-sensitive match against the five raw values. */
  function FromRawValue(s: string): (r: Option<Mood>)
    ensures r.Some? ==> RawValue(r.value) == s
    ensures r.None? ==> forall m :: RawValue(m) != s
  {
    if s == "Very Happy" then Some(VeryHappy)
    else if s == "Happy" then Some(Happy)
    else if s == "Neutral" then Some(Neutral)
    else if s == "Sad" then Some(Sad)
    else if s == "Very Sad" then Some(VerySad)
    else
      assert forall m :: RawValue(m) != s;
      None
  }

  /** `id`, the `Identifiable` key. */
  function Id(m: Mood): string {
    RawValue(m)
  }

  /** `description`, the label the picker shows. */
  function Description(m: Mood): string {
    RawValue(m)
  }

  /** `icon`: an SF Symbols name. */
  function Icon(m: Mood): string {
    match m
    case VeryHappy => "face.smiling.fill"
    case Happy => "face.smiling"
    case Neutral => "face.neutral"
    case Sad => "face.frown"
    case VerySad => "face.frown.fill"
  }

  /** The SwiftUI colours `color` picks from. */
  datatype Color = Yellow | Green | Blue | Orange | Red

  /** `color`. */
  function ColorOf(m: Mood): Color {
    match m
    case VeryHappy => Yellow
    case Happy => Green
    case Neutral => Blue
    case Sad => Orange
    case VerySad => Red
  }

  /** `allCases` lists every case exactly once, in the order the enum declares them. */
  lemma AllCasesEnumerates()
    ensures |AllCases| == 5
    ensures forall m :: m in AllCases
    ensures forall i, j :: 0 <= i < j < |AllCases| ==> AllCases[i] != AllCases[j]
    ensures AllCases[0] == VeryHappy && AllCases[4] == VerySad
  {
    forall m ensures m in AllCases {
      match m
      case VeryHappy => assert AllCases[0] == m;
      case Happy => assert AllCases[1] == m;
      case Neutral => assert AllCases[2] == m;
      case Sad => assert AllCases[3] == m;
      case VerySad => assert AllCases[4] == m;
    }
  }

  /** The raw values are pairwise distinct, so `Mood(rawValue:)` inverts `rawValue`. */
  lemma RawValueRoundTrip(m: Mood, s: string)
    ensures FromRawValue(RawValue(m)) == Some(m)
    ensures FromRawValue(s) == Some(m) <==> s == RawValue(m)
  {
  }

  /** Raw values match case-sensitively: a differently cased spelling is not a mood. */
  lemma FromRawValueIsCaseSensitive()
    ensures FromRawValue("happy") == None
    ensures FromRawValue("very happy") == None
    ensures FromRawValue("VerySad") == None
  {
  }

  /** `id` and `description` are the raw value, so `id` identifies the mood. */
  lemma IdIdentifiesMood(a: Mood, b: Mood)
    ensures Id(a) == RawValue(a) && Description(a) == RawValue(a)
    ensures Id(a) == Id(b) <==> a == b
  {
  }

  /** Each case has its own icon and its own colour. */
  lemma IconsAndColorsDistinct(a: Mood, b: Mood)
    ensures Icon(a) == Icon(b) <==> a == b
    ensures ColorOf(a) == ColorOf(b) <==> a == b
  {
  }
}
