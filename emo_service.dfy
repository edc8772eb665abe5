/**
 * EMO's `EmotionDataService`: the mood records persisted as one JSON array under the
 * `UserDefaults` key `"emotionRecords"`, and the queries and statistics computed from them.
 *
 * Every query re-reads the stored array (`getAllRecords`), so the service's only state is the
 * `UserDefaults` dictionary. A stored value that is missing, is not JSON, or does not decode as a
 * whole reads as "no records".
 */
module EmoService {
  import opened Wrappers
  import opened Json
  import opened EmoMood
  import opened EmotionRecord
  import opened Sequences

  /** A `UserDefaults` data value as the decoder sees it: bytes that are not JSON, or a JSON document. */
  datatype Blob = Unparsable | Document(doc: Json)

  const RecordsKey := "emotionRecords"

  function Timestamp(r: EmotionRecord): int {
    r.timestamp
  }

  /** Canonical read order: newest first. */
  ghost predicate NewestFirst(rs: seq<EmotionRecord>) {
    SortedDesc(rs, Timestamp)
  }

  /** The guard of `getAllRecords`: the stored array, when there is data and all of it decodes. */
  function DecodeEntry(entry: Option<Blob>): Option<seq<EmotionRecord>> {
    match entry
    case None => None
    case Some(Unparsable) => None
    case Some(Document(j)) => DecodeRecords(j).ToOption()
  }

  /** `{ $0.mood == mood }` */
  function HasMood(m: Mood): EmotionRecord -> bool {
    (r: EmotionRecord) => r.mood == m
  }

  /** The number of records with mood `m`. */
  function CountMood(rs: seq<EmotionRecord>, m: Mood): nat {
    if rs == [] then 0 else (if rs[0].mood == m then 1 else 0) + CountMood(rs[1..], m)
  }

  /** `records.filter { $0.mood == mood }.count` is that number. */
  lemma {:induction false} CountMoodIsFilterCount(rs: seq<EmotionRecord>, m: Mood)
    ensures CountMood(rs, m) == |Filter(rs, HasMood(m))|
  {
    if rs != [] {
      CountMoodIsFilterCount(rs[1..], m);
    }
  }

  /** `{ record.timestamp >= from && record.timestamp <= to }` */
  function InRange(from: int, to: int): EmotionRecord -> bool {
    (r: EmotionRecord) => from <= r.timestamp <= to
  }

  /** The ordinal value `getAverageMood` gives each mood. */
  function Weight(m: Mood): int {
    match m
    case VeryHappy => 5
    case Happy => 4
    case Neutral => 3
    case Sad => 2
    case VerySad => 1
  }

  /** The `records.map` closure of `getAverageMood`. */
  function MoodValue(r: EmotionRecord): int {
    Weight(r.mood)
  }

  /** `moodValues.reduce(0, +)` */
  function WeightSum(rs: seq<EmotionRecord>): int {
    SumBy(rs, MoodValue)
  }

  /**
   * The `switch` on `average = sum / n`, with each `Double` bound restated exactly over integers
   * (`average >= 4.5` is `2 * sum >= 9 * n`, and so on). The result is the mood whose weight is
   * nearest to the average, halves rounding up, and the ends absorbing everything beyond them.
   */
  function Bucket(sum: int, n: nat): (m: Mood)
    requires n > 0
    ensures m == VeryHappy || 2 * sum < (2 * Weight(m) + 1) * n
    ensures m == VerySad || (2 * Weight(m) - 1) * n <= 2 * sum
  {
    if 2 * sum >= 9 * n then VeryHappy
    else if 2 * sum >= 7 * n then Happy
    else if 2 * sum >= 5 * n then Neutral
    else if 2 * sum >= 3 * n then Sad
    else VerySad
  }

  lemma {:induction false} WeightSumBounds(rs: seq<EmotionRecord>)
    ensures |rs| <= WeightSum(rs) <= 5 * |rs|
  {
    if rs != [] {
      WeightSumBounds(rs[1..]);
    }
  }

  /** Every record has exactly one mood, so the five per-mood counts add up to the record count. */
  lemma {:induction false} CountsCoverRecords(rs: seq<EmotionRecord>)
    ensures CountMood(rs, VeryHappy) + CountMood(rs, Happy) + CountMood(rs, Neutral)
      + CountMood(rs, Sad) + CountMood(rs, VerySad) == |rs|
  {
    if rs != [] {
      CountsCoverRecords(rs[1..]);
    }
  }

  /** The facts about filtering a newest-first list by an inclusive time range. */
  lemma RangeSelection(all: seq<EmotionRecord>, from: int, to: int)
    requires NewestFirst(all)
    ensures var r := Filter(all, InRange(from, to));
      && (forall x :: multiset(r)[x] == if from <= x.timestamp <= to then multiset(all)[x] else 0)
      && IsSubsequence(r, all)
      && NewestFirst(r)
      && (from > to ==> r == [])
  {
    var p := InRange(from, to);
    var r := Filter(all, p);
    assert forall x :: p(x) == (from <= x.timestamp <= to);
    FilterIsSubsequence(all, p);
    FilterPreservesSorted(all, p, Timestamp);
  }

  /** The loop of `getMoodDistribution`: one entry per case of `Mood.allCases`. */
  method CountEachMood(records: seq<EmotionRecord>) returns (distribution: map<Mood, nat>)
    ensures forall m :: m in distribution && distribution[m] == CountMood(records, m)
    ensures distribution[VeryHappy] + distribution[Happy] + distribution[Neutral]
      + distribution[Sad] + distribution[VerySad] == |records|
  {
    distribution := map[];
    for i := 0 to |AllCases|
      invariant forall k :: 0 <= k < i ==> AllCases[k] in distribution
      invariant forall m :: m in distribution ==> distribution[m] == CountMood(records, m)
    {
      var mood := AllCases[i];
      distribution := distribution[mood := CountMood(records, mood)];
    }
    forall m ensures m in distribution {
      var k := match m case VeryHappy => 0 case Happy => 1 case Neutral => 2 case Sad => 3 case VerySad => 4;
      assert AllCases[k] == m;
    }
    CountsCoverRecords(records);
  }

  /** The computation of `getAverageMood` on the records it read. */
  function AverageMood(records: seq<EmotionRecord>): (r: Option<Mood>)
    ensures r.None? <==> records == []
    ensures r.Some? ==>
      var n, sum := |records|, WeightSum(records);
      (2 * Weight(r.value) - 1) * n <= 2 * sum < (2 * Weight(r.value) + 1) * n
  {
    if records == [] then None
    else
      WeightSumBounds(records);
      Some(Bucket(WeightSum(records), |records|))
  }

  class EmotionDataService {
    /** `UserDefaults.standard`, shared with whatever else the app stores there. */
    var defaults: map<string, Blob>

    constructor(defaults: map<string, Blob>)
      ensures this.defaults == defaults
    {
      this.defaults := defaults;
    }

    /** The records under `"emotionRecords"` when that value exists and decodes as a whole. */
    function StoredRecords(): Option<seq<EmotionRecord>>
      reads this
    {
      DecodeEntry(if RecordsKey in defaults then Some(defaults[RecordsKey]) else None)
    }

    /** `getAllRecords()`: every stored record, newest first; nothing when the stored value is missing or bad. */
    function GetAllRecords(): (r: seq<EmotionRecord>)
      reads this
      ensures StoredRecords().None? ==> r == []
      ensures StoredRecords().Some? ==> multiset(r) == multiset(StoredRecords().value)
      ensures NewestFirst(r)
    {
      match StoredRecords()
      case None => []
      case Some(rs) => SortByKeyDesc(rs, Timestamp)
    }

    /** `getRecentRecords(limit:)`: the `limit` newest records (all of them when there are fewer). */
    function GetRecentRecords(limit: nat := 5): (r: seq<EmotionRecord>)
      reads this
      ensures |r| == Min(limit, |GetAllRecords()|)
      ensures r == GetAllRecords()[..|r|]
      ensures forall i, j :: 0 <= i < |r| <= j < |GetAllRecords()| ==>
        r[i].timestamp >= GetAllRecords()[j].timestamp
    {
      GetAllRecords()[..Min(limit, |GetAllRecords()|)]
    }

    /** `getRecordsByDateRange(from:to:)`: exactly the records stamped within `[from, to]`, newest first. */
    function GetRecordsByDateRange(from: int, to: int): (r: seq<EmotionRecord>)
      reads this
      ensures forall x ::
        multiset(r)[x] == if from <= x.timestamp <= to then multiset(GetAllRecords())[x] else 0
      ensures IsSubsequence(r, GetAllRecords())
      ensures NewestFirst(r)
      ensures from > to ==> r == []
    {
      var all := GetAllRecords();
      RangeSelection(all, from, to);
      Filter(all, InRange(from, to))
    }

    /** `getMoodDistribution()`: a count for every mood, zero included; the counts add up to the record count. */
    method GetMoodDistribution() returns (distribution: map<Mood, nat>)
      ensures forall m :: m in distribution && distribution[m] == CountMood(GetAllRecords(), m)
      ensures distribution[VeryHappy] + distribution[Happy] + distribution[Neutral]
        + distribution[Sad] + distribution[VerySad] == |GetAllRecords()|
    {
      var records := GetAllRecords();
      distribution := CountEachMood(records);
    }

    /**
     * `getAverageMood()`: `nil` exactly when there are no records; otherwise the mood whose weight
     * is nearest to the mean weight, halves rounding up.
     */
    function GetAverageMood(): (r: Option<Mood>)
      reads this
      ensures r.None? <==> GetAllRecords() == []
      ensures r.Some? ==>
        var n, sum := |GetAllRecords()|, WeightSum(GetAllRecords());
        (2 * Weight(r.value) - 1) * n <= 2 * sum < (2 * Weight(r.value) + 1) * n
    {
      AverageMood(GetAllRecords())
    }

    /**
     * `saveRecord(_:)`: writes back the current records, newest first, with `record` appended.
     * Only the `"emotionRecords"` entry changes. A value that did not decode is replaced by `[record]`.
     */
    method SaveRecord(record: EmotionRecord)
      modifies this
      ensures defaults == old(defaults)[RecordsKey := Document(EncodeRecords(old(GetAllRecords()) + [record]))]
      ensures StoredRecords() == Some(old(GetAllRecords()) + [record])
      ensures old(StoredRecords()).None? ==> StoredRecords() == Some([record])
    {
      var records := GetAllRecords();
      records := records + [record];
      defaults := defaults[RecordsKey := Document(EncodeRecords(records))];
      RecordsRoundTrip(records);
      assert [] + [record] == [record];
    }
  }

  /** After `saveRecord(r)`, reading everything gives the earlier records plus `r`, in newest-first order. */
  lemma SavedRecordIsRead(svc: EmotionDataService, before: seq<EmotionRecord>, record: EmotionRecord)
    requires svc.StoredRecords() == Some(before + [record])
    ensures multiset(svc.GetAllRecords()) == multiset(before) + multiset{record}
    ensures record in svc.GetAllRecords()
  {
    assert record in multiset(svc.GetAllRecords());
  }

  /** The average depends only on which records are stored, not on the order they are stored in. */
  lemma AverageIgnoresStoredOrder(svc: EmotionDataService, other: EmotionDataService)
    requires svc.StoredRecords().Some? && other.StoredRecords().Some?
    requires multiset(svc.StoredRecords().value) == multiset(other.StoredRecords().value)
    ensures svc.GetAverageMood() == other.GetAverageMood()
  {
    var a, b := svc.GetAllRecords(), other.GetAllRecords();
    SumByPermutation(a, b, MoodValue);
    assert |a| == |multiset(a)| == |multiset(b)| == |b|;
  }

  lemma HappyHappySadIsNeutral(rs: seq<EmotionRecord>, h1: EmotionRecord, h2: EmotionRecord, s: EmotionRecord)
    requires h1.mood == Happy && h2.mood == Happy && s.mood == Sad
    requires multiset(rs) == multiset([h1, h2, s])
    ensures |rs| == 3 && Bucket(WeightSum(rs), |rs|) == Neutral
  {
    SumByPermutation(rs, [h1, h2, s], MoodValue);
    assert WeightSum([h1, h2, s]) == 10 by {
      assert [s][1..] == [];
      assert SumBy([s], MoodValue) == 2;
      assert [h2, s][1..] == [s];
      assert SumBy([h2, s], MoodValue) == 6;
      assert [h1, h2, s][1..] == [h2, s];
    }
    assert |rs| == |multiset(rs)| == 3;
  }

  /** Two happy records and one sad one average 10/3, which falls in the neutral bucket [2.5, 3.5). */
  lemma AverageOfHappyHappySad(svc: EmotionDataService, h1: EmotionRecord, h2: EmotionRecord, s: EmotionRecord)
    requires h1.mood == Happy && h2.mood == Happy && s.mood == Sad
    requires svc.StoredRecords() == Some([h1, h2, s])
    ensures svc.GetAverageMood() == Some(Neutral)
  {
    HappyHappySadIsNeutral(svc.GetAllRecords(), h1, h2, s);
  }

  /** A date range whose start is after its end selects nothing. */
  lemma EmptyRangeSelectsNothing(svc: EmotionDataService, from: int, to: int)
    requires from > to
    ensures svc.GetRecordsByDateRange(from, to) == []
  {
  }
}
