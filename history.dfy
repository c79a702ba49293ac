/**
 * The reading-history page: the relative time shown for each entry
 * (`formatTimeAgo`) and the two ways of editing the list, removing one
 * story and clearing everything. Date parsing and the clock are the
 * parameter `elapsedMs`: the milliseconds between the entry's time and now,
 * or None when the date string does not parse (JavaScript's NaN).
 */
module History {
  import opened Common
  import opened Seqs
  import opened Text

  datatype Unit = Year | Month | Day | Hour | Minute

  /** The seconds each unit stands for, tried from the largest down. */
  function UnitSeconds(u: Unit): (n: nat)
    ensures n >= 60
  {
    match u
    case Year => 31536000
    case Month => 2592000
    case Day => 86400
    case Hour => 3600
    case Minute => 60
  }

  /** Larger units come first. */
  function Rank(u: Unit): nat {
    match u
    case Year => 4
    case Month => 3
    case Day => 2
    case Hour => 1
    case Minute => 0
  }

  function UnitWord(u: Unit): string {
    match u
    case Year => " năm trước"
    case Month => " tháng trước"
    case Day => " ngày trước"
    case Hour => " giờ trước"
    case Minute => " phút trước"
  }

  /** What `formatTimeAgo` decides: a count of some unit, or "just now". */
  datatype Ago = JustNow | Count(n: nat, unit: Unit)

  /** `Math.floor(ms / 1000)`: Dafny's division by a positive number floors. */
  function Seconds(elapsedMs: int): int {
    elapsedMs / 1000
  }

  /** The first unit whose length `seconds` strictly exceeds, counted with
      `Math.floor(seconds / unit)`. */
  function AgoOf(seconds: int): (r: Ago)
    ensures r.Count? ==> r.n >= 1 && r.n == seconds / UnitSeconds(r.unit)
  {
    if seconds > 31536000 then Count(seconds / 31536000, Year)
    else if seconds > 2592000 then Count(seconds / 2592000, Month)
    else if seconds > 86400 then Count(seconds / 86400, Day)
    else if seconds > 3600 then Count(seconds / 3600, Hour)
    else if seconds > 60 then Count(seconds / 60, Minute)
    else JustNow
  }

  function Render(a: Ago): string {
    match a
    case JustNow => "Vừa xong"
    case Count(n, u) => NatToString(n) + UnitWord(u)
  }

  /** `formatTimeAgo`. A date that does not parse makes every comparison with
      NaN false, so it reads "just now". */
  function FormatTimeAgo(elapsedMs: Option<int>): string {
    if elapsedMs.None? then Render(JustNow) else Render(AgoOf(Seconds(elapsedMs.value)))
  }

  /** "Just now" exactly for at most sixty seconds, negative ages included. */
  lemma JustNowExactly(seconds: int)
    ensures AgoOf(seconds) == JustNow <==> seconds <= 60
  {
  }

  /** The unit used is the largest one that `seconds` strictly exceeds. */
  lemma LargestUnitExceeded(seconds: int)
    ensures AgoOf(seconds).Count? ==>
      var u := AgoOf(seconds).unit;
      seconds > UnitSeconds(u) &&
      forall v: Unit :: Rank(v) > Rank(u) ==> seconds <= UnitSeconds(v)
  {
  }

  /** An older entry never shows a smaller unit than a newer one. */
  lemma UnitMonotone(s1: int, s2: int)
    requires s1 <= s2 && AgoOf(s1).Count?
    ensures AgoOf(s2).Count? && Rank(AgoOf(s1).unit) <= Rank(AgoOf(s2).unit)
  {
  }

  /** The thresholds are strict: exactly an hour is sixty minutes. */
  lemma HourIsSixtyMinutes()
    ensures FormatTimeAgo(Some(3600000)) == "60 phút trước"
  {
    calc {
      FormatTimeAgo(Some(3600000));
      { assert Seconds(3600000) == 3600; }
      Render(AgoOf(3600));
      { assert AgoOf(3600) == Count(60, Minute); }
      Render(Count(60, Minute));
      { assert NatToString(60) == NatToString(6) + [DigitChar(0)]; }
      "60" + " phút trước";
    }
  }

  /** Exactly a year is twelve months. */
  lemma YearIsTwelveMonths()
    ensures FormatTimeAgo(Some(31536000000)) == "12 tháng trước"
  {
    calc {
      FormatTimeAgo(Some(31536000000));
      { assert Seconds(31536000000) == 31536000; }
      Render(AgoOf(31536000));
      { assert AgoOf(31536000) == Count(12, Month); }
      Render(Count(12, Month));
      { assert NatToString(12) == NatToString(1) + [DigitChar(2)]; }
      "12" + " tháng trước";
    }
  }

  /** Seconds are whole: 60.999 seconds, like a date that does not parse,
      is "just now". */
  lemma JustNowExamples()
    ensures FormatTimeAgo(Some(60999)) == "Vừa xong"
    ensures FormatTimeAgo(None) == "Vừa xong"
  {
    assert Seconds(60999) == 60;
  }

  /** The printed count reads back as the number of whole units. */
  lemma CountReadsBack(seconds: int)
    requires AgoOf(seconds).Count?
    ensures var a := AgoOf(seconds);
      Render(a) == NatToString(a.n) + UnitWord(a.unit) &&
      DecimalValue(NatToString(a.n)) == seconds / UnitSeconds(a.unit)
  {
    NatToStringRoundTrip(AgoOf(seconds).n);
  }

  datatype HistoryItem = HistoryItem(
    id: string,
    storySlug: string,
    storyTitle: string,
    cover: string,
    lastChapterRead: int,
    lastChapterTitle: string,
    lastReadAt: string)

  /** The list after removing the entries with id `id`. */
  function Without(items: seq<HistoryItem>, id: string): seq<HistoryItem> {
    Filter(items, (h: HistoryItem) => h.id != id)
  }

  /** Removal drops every entry with that id, keeps every other one, and
      changes nothing when no entry has it; removing twice is removing once. */
  lemma WithoutSpec(items: seq<HistoryItem>, id: string)
    ensures forall h :: h in Without(items, id) <==> h in items && h.id != id
    ensures (forall i :: 0 <= i < |items| ==> items[i].id != id) ==> Without(items, id) == items
    ensures Without(Without(items, id), id) == Without(items, id)
  {
    var p := (h: HistoryItem) => h.id != id;
    if forall i :: 0 <= i < |items| ==> items[i].id != id {
      FilterAll(items, p);
    }
    FilterIdempotent(items, p);
  }

  /** The kept entries are in their original order: removal distributes
      over the parts of the list. */
  lemma WithoutKeepsOrder(a: seq<HistoryItem>, b: seq<HistoryItem>, id: string)
    ensures Without(a + b, id) == Without(a, id) + Without(b, id)
  {
    FilterAppend(a, b, (h: HistoryItem) => h.id != id);
  }

  class HistoryPage {
    var history: seq<HistoryItem>
    var isLoading: bool

    /** The page starts empty and loading. */
    constructor()
      ensures history == [] && isLoading
    {
      history := [];
      isLoading := true;
    }

    /** The fetch for a signed-in user has returned `items`. */
    method Loaded(items: seq<HistoryItem>)
      modifies this
      ensures history == items && !isLoading
    {
      history := items;
      isLoading := false;
    }

    /** `handleRemoveItem`. */
    method RemoveItem(id: string)
      modifies this
      ensures history == Without(old(history), id) && isLoading == old(isLoading)
    {
      history := Without(history, id);
    }

    /** `handleClearHistory`. */
    method ClearHistory()
      modifies this
      ensures history == [] && isLoading == old(isLoading)
    {
      history := [];
    }
  }
}
