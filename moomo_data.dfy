/**
 * Moomo's `MoodDataManager`: the in-memory list of mood records, its guarded reload, appending a
 * record, the newest record of a calendar day, and the `"yyyy-MM-dd"` day keys.
 *
 * The JSON file behind `load`/`save` is abstract: `Load` receives the file's decoded contents,
 * `None` when the file could not be read or did not decode as a whole.
 */
module MoomoData {
  import opened Wrappers
  import opened Uuids
  import opened Calendars
  import opened Sequences

  /** The six emotions a record can carry, as `generateMockData` lists them. */
  datatype EmotionType = Joy | Sadness | Surprise | Disgust | Anger | Fear

  datatype MoodRecord = MoodRecord(id: Uuid, dateTime: int, emotion: EmotionType, content: string) {
    /** `dayString`: the record's own day formatted as `"yyyy-MM-dd"`. */
    function DayString(cal: Calendar): string {
      FormatDay(cal.dayOf(dateTime))
    }
  }

  // ---------------------------------------------------------------------------------------------
  // The "yyyy-MM-dd" pattern

  function Pow10(k: nat): (p: nat)
    ensures p > k
  {
    if k == 0 then 1 else 10 * Pow10(k - 1)
  }

  predicate IsDigit(c: char) {
    '0' <= c <= '9'
  }

  function DigitChar(d: nat): (c: char)
    requires d <= 9
    ensures IsDigit(c)
  {
    ('0' as int + d) as char
  }

  /** The last `width` decimal digits of `n`, with leading zeros. */
  function Digits(n: nat, width: nat): (s: string)
    ensures |s| == width
    ensures forall i :: 0 <= i < |s| ==> IsDigit(s[i])
  {
    if width == 0 then [] else Digits(n / 10, width - 1) + [DigitChar(n % 10)]
  }

  /** A date field padded with zeros to at least `width` digits, as the pattern letters repeat. */
  function Padded(n: nat, width: nat): (s: string)
    ensures n < Pow10(width) ==> s == Digits(n, width)
    decreases n - width
  {
    if n < Pow10(width) then Digits(n, width) else Padded(n, width + 1)
  }

  /** `DateFormatter` with `dateFormat = "yyyy-MM-dd"`, given the calendar day of the instant. */
  function FormatDay(d: CivilDate): string {
    Padded(d.year, 4) + "-" + Padded(d.month, 2) + "-" + Padded(d.day, 2)
  }

  /** `MoodDataManager.dayString(from:)`. */
  function DayStringFrom(cal: Calendar, date: int): string {
    FormatDay(cal.dayOf(date))
  }

  /** The value of a string of decimal digits. */
  function DigitsValue(s: string): nat
    requires forall i :: 0 <= i < |s| ==> IsDigit(s[i])
  {
    if s == [] then 0
    else
      var last := s[|s| - 1];
      assert IsDigit(last);
      DigitsValue(s[..|s| - 1]) * 10 + (last as int - '0' as int)
  }

  /** Reads a `"yyyy-MM-dd"` key back into its day; the inverse of `FormatDay` on four-digit years. */
  function ParseDay(s: string): Option<CivilDate> {
    if |s| == 10 && s[4] == '-' && s[7] == '-'
      && (forall i :: 0 <= i < 10 && i != 4 && i != 7 ==> IsDigit(s[i]))
    then Some(CivilDate(DigitsValue(s[..4]), DigitsValue(s[5..7]), DigitsValue(s[8..])))
    else None
  }

  lemma {:induction false} DigitsRoundTrip(n: nat, width: nat)
    requires n < Pow10(width)
    ensures DigitsValue(Digits(n, width)) == n
  {
    if width > 0 {
      var s, prefix := Digits(n, width), Digits(n / 10, width - 1);
      var d := n % 10;
      assert s == prefix + [DigitChar(d)];
      assert s[..width - 1] == prefix;
      assert s[width - 1] as int - '0' as int == d;
      assert n / 10 < Pow10(width - 1);
      DigitsRoundTrip(n / 10, width - 1);
      assert DigitsValue(s) == DigitsValue(prefix) * 10 + d;
    }
  }

  /** The day components a four-digit-year formatter writes without widening a field. */
  predicate FitsPattern(d: CivilDate) {
    d.year < 10000 && d.month < 100 && d.day < 100
  }

  lemma FormatDayRoundTrip(d: CivilDate)
    requires FitsPattern(d)
    ensures |FormatDay(d)| == 10
    ensures ParseDay(FormatDay(d)) == Some(d)
  {
    var y, m, dd := Digits(d.year, 4), Digits(d.month, 2), Digits(d.day, 2);
    var s := FormatDay(d);
    assert s == y + "-" + m + "-" + dd;
    assert s[..4] == y && s[5..7] == m && s[8..] == dd;
    DigitsRoundTrip(d.year, 4);
    DigitsRoundTrip(d.month, 2);
    DigitsRoundTrip(d.day, 2);
  }

  /**
   * Within four-digit years, two instants get the same day key exactly when the calendar puts them
   * on the same day: the key identifies the day `latestRecord(for:)` looks up.
   */
  lemma DayStringIsDayKey(cal: Calendar, a: int, b: int)
    requires FitsPattern(cal.dayOf(a)) && FitsPattern(cal.dayOf(b))
    ensures DayStringFrom(cal, a) == DayStringFrom(cal, b) <==> IsSameDay(cal, a, b)
  {
    FormatDayRoundTrip(cal.dayOf(a));
    FormatDayRoundTrip(cal.dayOf(b));
  }

  /** A record's `dayString` is the static `dayString(from:)` of its `dateTime`. */
  lemma RecordDayStringAgrees(cal: Calendar, r: MoodRecord)
    ensures r.DayString(cal) == DayStringFrom(cal, r.dateTime)
    ensures FitsPattern(cal.dayOf(r.dateTime)) ==> ParseDay(r.DayString(cal)) == Some(cal.dayOf(r.dateTime))
  {
    if FitsPattern(cal.dayOf(r.dateTime)) {
      FormatDayRoundTrip(cal.dayOf(r.dateTime));
    }
  }

  // ---------------------------------------------------------------------------------------------
  // The manager

  function DateTime(r: MoodRecord): int {
    r.dateTime
  }

  /** `{ Calendar.current.isDate($0.dateTime, inSameDayAs: date) }` */
  function OnDayOf(cal: Calendar, date: int): MoodRecord -> bool {
    (r: MoodRecord) => IsSameDay(cal, r.dateTime, date)
  }

  /** `rec` is a record of calendar day `day`, and no record of that day is later. */
  ghost predicate LatestOfDay(records: seq<MoodRecord>, cal: Calendar, day: CivilDate, rec: MoodRecord) {
    rec in records && cal.dayOf(rec.dateTime) == day &&
    forall x :: x in records && cal.dayOf(x.dateTime) == day ==> x.dateTime <= rec.dateTime
  }

  class MoodDataManager {
    var records: seq<MoodRecord>

    /** `init()`: an empty list, then `load()`. */
    constructor(stored: Option<seq<MoodRecord>>)
      ensures records == stored.GetOr([])
    {
      records := [];
      new;
      Load(stored);
    }

    /** `load()`: replaces the records only when the file was read and decoded as a whole. */
    method Load(stored: Option<seq<MoodRecord>>)
      modifies this
      ensures stored.Some? ==> records == stored.value
      ensures stored.None? ==> records == old(records)
    {
      if stored.Some? {
        records := stored.value;
      }
    }

    /**
     * `addRecord(emotion:content:)`: one new record at the end, stamped with a fresh id and the
     * current time; the earlier records stay as they were, in their order.
     */
    method AddRecord(emotion: EmotionType, content: string, freshId: Uuid, now: int)
      modifies this
      ensures records == old(records) + [MoodRecord(freshId, now, emotion, content)]
    {
      var record := MoodRecord(freshId, now, emotion, content);
      records := records + [record];
    }

    /**
     * `latestRecord(for:)`: `nil` exactly when no record falls on the calendar day of `date`;
     * otherwise a record of that day that no record of the day is later than.
     */
    function LatestRecord(cal: Calendar, date: int): (r: Option<MoodRecord>)
      reads this
      ensures r.None? <==> forall x :: x in records ==> !IsSameDay(cal, x.dateTime, date)
      ensures r.Some? ==> r.value in records && IsSameDay(cal, r.value.dateTime, date)
      ensures r.Some? ==> forall x :: x in records && IsSameDay(cal, x.dateTime, date) ==>
        x.dateTime <= r.value.dateTime
    {
      var sameDay := Filter(records, OnDayOf(cal, date));
      var sorted := SortByKeyDesc(sameDay, DateTime);
      SortedHeadIsGreatest(sameDay, sorted, DateTime);
      if sorted == [] then None else Some(sorted[0])
    }
  }

  /**
   * The order of `records` does not decide whether a day has a latest record nor when it was made;
   * it only decides which of several records tied at that time is returned.
   */
  lemma LatestIgnoresOrder(a: MoodDataManager, b: MoodDataManager, cal: Calendar, date: int)
    requires multiset(a.records) == multiset(b.records)
    ensures a.LatestRecord(cal, date).None? <==> b.LatestRecord(cal, date).None?
    ensures a.LatestRecord(cal, date).Some? ==>
      a.LatestRecord(cal, date).value.dateTime == b.LatestRecord(cal, date).value.dateTime
  {
    forall x ensures x in a.records <==> x in b.records {
      assert x in a.records <==> x in multiset(a.records);
      assert x in b.records <==> x in multiset(b.records);
    }
  }

  /** A record just added is what its day shows, unless an earlier record of that day is later still. */
  lemma AddedRecordIsLatest(m: MoodDataManager, cal: Calendar, r: MoodRecord)
    requires r in m.records
    requires forall x :: x in m.records && IsSameDay(cal, x.dateTime, r.dateTime) ==> x.dateTime <= r.dateTime
    ensures m.LatestRecord(cal, r.dateTime).Some?
    ensures m.LatestRecord(cal, r.dateTime).value.dateTime == r.dateTime
  {
  }
}
