/**
 * The calculation itself (`_calculate_thread`): extract the playlist id,
 * fetch every entry, apply the 1-based range with Python slicing, resolve
 * and sum the durations, and build the table of playback speeds.
 */
module Calculator {
  import opened Wrappers
  import opened Errors
  import opened Duration
  import opened PlaylistId
  import opened Fetcher
  import opened Resolver
  import opened Decimal

  function Max(a: int, b: int): int {
    if a >= b then a else b
  }

  /** Where a Python slice bound `i` lands in a sequence of length `n`: negative counts from the back, then clamped. */
  function SliceBound(i: int, n: nat): (k: nat)
    ensures k <= n
  {
    if i < 0 then Max(i + n, 0) else Min(i, n)
  }

  /** Python's `s[lo:hi]`. */
  function PySlice<T>(s: seq<T>, lo: int, hi: int): seq<T> {
    var a := SliceBound(lo, |s|);
    var b := SliceBound(hi, |s|);
    if a < b then s[a..b] else []
  }

  /** The range filter's outcome: `start_idx`, `end_idx` and `videos[start_idx:end_idx]`. */
  datatype Selection = Selection(startIdx: int, endIdx: int, videos: seq<Entry>)

  /**
   * `start_idx = max(1, int(start or 1)) - 1` and `end_idx = min(int(end), len(videos))`
   * when the end field is filled in, `len(videos)` otherwise. `None` is an empty field.
   */
  function Select(videos: seq<Entry>, start: Option<int>, end: Option<int>): Selection {
    var startIdx := Max(1, start.GetOr(1)) - 1;
    var endIdx := if end.Some? then Min(end.value, |videos|) else |videos|;
    Selection(startIdx, endIdx, PySlice(videos, startIdx, endIdx))
  }

  /** Whatever is typed, the selection is a contiguous run of the playlist. */
  lemma SelectContiguous(videos: seq<Entry>, start: Option<int>, end: Option<int>)
    ensures exists i, j :: 0 <= i <= j <= |videos| && Select(videos, start, end).videos == videos[i..j]
  {
    var sel := Select(videos, start, end);
    var a := SliceBound(sel.startIdx, |videos|);
    var b := SliceBound(sel.endIdx, |videos|);
    if a < b {
      assert sel.videos == videos[a..b];
    } else {
      assert sel.videos == videos[0..0];
    }
  }

  /**
   * With a non-negative end (or none), the selection is videos number
   * `max(1, start)` to `min(end, len)`, 1-based and inclusive, and empty when
   * that range is.
   */
  lemma SelectRange(videos: seq<Entry>, start: Option<int>, end: Option<int>)
    requires end.None? || end.value >= 0
    ensures var sel := Select(videos, start, end);
      var first := Max(1, start.GetOr(1));
      var last := if end.Some? then Min(end.value, |videos|) else |videos|;
      && sel.startIdx + 1 == first && sel.endIdx == last
      && sel.videos == if first <= last then videos[first - 1..last] else []
  {
  }

  /** A negative end counts from the back, as Python slicing does: `-1` leaves out the last video. */
  lemma SelectNegativeEnd(videos: seq<Entry>, start: Option<int>, back: nat)
    requires 0 < back <= |videos|
    ensures var sel := Select(videos, start, Some(-(back as int)));
      var first := Max(1, start.GetOr(1));
      sel.videos == if first <= |videos| - back then videos[first - 1..|videos| - back] else []
  {
  }

  /** On a playlist of 30, the range 25..100 is clamped to 25..30; a start of 40 selects nothing. */
  lemma SelectClampExample(videos: seq<Entry>)
    requires |videos| == 30
    ensures var sel := Select(videos, Some(25), Some(100));
      sel.startIdx + 1 == 25 && sel.endIdx == 30 && sel.videos == videos[24..30]
    ensures Select(videos, Some(40), None).videos == []
  {
    SelectRange(videos, Some(25), Some(100));
    SelectRange(videos, Some(40), None);
  }

  /** `[video['id'] for video in selected_videos]`. */
  function Ids(videos: seq<Entry>): (ids: seq<string>)
    ensures |ids| == |videos| && forall i :: 0 <= i < |videos| ==> ids[i] == videos[i].id
  {
    seq(|videos|, i requires 0 <= i < |videos| => videos[i].id)
  }

  /** `durations.get(id, 0)`. */
  function Get(durations: map<string, nat>, id: string): nat {
    if id in durations then durations[id] else 0
  }

  /** `sum(durations.get(video['id'], 0) for video in selected_videos)`. */
  function Total(videos: seq<Entry>, durations: map<string, nat>): nat {
    if |videos| == 0 then 0 else Get(durations, videos[0].id) + Total(videos[1..], durations)
  }

  /** The sum runs over entries, not over the map: splitting the entries splits the sum. */
  lemma {:induction false} TotalAppend(a: seq<Entry>, b: seq<Entry>, durations: map<string, nat>)
    ensures Total(a + b, durations) == Total(a, durations) + Total(b, durations)
    decreases |a|
  {
    if |a| == 0 {
      assert a + b == b;
    } else {
      assert (a + b)[0] == a[0] && (a + b)[1..] == a[1..] + b;
      TotalAppend(a[1..], b, durations);
    }
  }

  /** A video listed twice counts twice. */
  lemma TotalCountsDuplicates(videos: seq<Entry>, durations: map<string, nat>)
    ensures Total(videos + videos, durations) == 2 * Total(videos, durations)
  {
    TotalAppend(videos, videos, durations);
  }

  /** The total is zero exactly when no selected video has a known, non-zero duration. */
  lemma {:induction false} TotalZero(videos: seq<Entry>, durations: map<string, nat>)
    ensures Total(videos, durations) == 0 <==> forall i :: 0 <= i < |videos| ==> Get(durations, videos[i].id) == 0
    decreases |videos|
  {
    if |videos| > 0 {
      TotalZero(videos[1..], durations);
      assert forall i :: 1 <= i < |videos| ==> videos[i] == videos[1..][i - 1];
    }
  }

  /** Every selected video contributes its duration (an unresolved one contributes 0). */
  lemma {:induction false} TotalAtLeast(videos: seq<Entry>, durations: map<string, nat>, i: nat)
    requires i < |videos|
    ensures Total(videos, durations) >= Get(durations, videos[i].id)
    decreases i
  {
    if i > 0 {
      assert videos[1..][i - 1] == videos[i];
      TotalAtLeast(videos[1..], durations, i - 1);
    }
  }

  // ---------------------------------------------------------------------------
  // Playback speeds

  /** `speeds = [1.0, 1.25, 1.5, 1.75, 2.0]`. */
  const Speeds: seq<real> := [1.0, 1.25, 1.5, 1.75, 2.0]

  /**
   * One entry of `speeds_data`: the speed, its time and its time saved in whole
   * seconds (`format_time` truncates with `int()`), no saving for the 1.0 row.
   * The texts shown are `TimeText` and `SavedText`.
   */
  datatype SpeedRow = SpeedRow(speed: real, time: int, saved: Option<int>) {
    function TimeText(): string {
      FormatTime(time)
    }

    function SavedText(): string {
      if saved.None? then "" else "Saves " + FormatTime(saved.value)
    }
  }

  /** `total_seconds / speed`. */
  function TimeAt(total: nat, speed: real): real
    requires speed > 0.0
  {
    total as real / speed
  }

  /** `total_seconds - time_at_speed`. */
  function SavedAt(total: nat, speed: real): real
    requires speed > 0.0
  {
    total as real - TimeAt(total, speed)
  }

  /** The row for one speed; truncation of a non-negative value is `Floor`. */
  function Row(total: nat, speed: real): SpeedRow
    requires speed > 0.0
  {
    SpeedRow(speed, TimeAt(total, speed).Floor, if speed == 1.0 then None else Some(SavedAt(total, speed).Floor))
  }

  predicate Positive(speeds: seq<real>) {
    forall k :: 0 <= k < |speeds| ==> speeds[k] > 0.0
  }

  /** The rows for `speeds`, in order. */
  function RowsFor(total: nat, speeds: seq<real>): seq<SpeedRow>
    requires Positive(speeds)
  {
    if |speeds| == 0 then [] else RowsFor(total, speeds[..|speeds| - 1]) + [Row(total, speeds[|speeds| - 1])]
  }

  /** `chart_times`: the time at each of `speeds`, in hours. */
  function ChartFor(total: nat, speeds: seq<real>): seq<real>
    requires Positive(speeds)
  {
    if |speeds| == 0 then [] else ChartFor(total, speeds[..|speeds| - 1]) + [TimeAt(total, speeds[|speeds| - 1]) / 3600.0]
  }

  /** Row `i` and chart value `i` belong to `speeds[i]`, and there is one of each per speed. */
  lemma {:induction false} TableAt(total: nat, speeds: seq<real>)
    requires Positive(speeds)
    ensures |RowsFor(total, speeds)| == |speeds| && |ChartFor(total, speeds)| == |speeds|
    ensures forall i :: 0 <= i < |speeds| ==> RowsFor(total, speeds)[i] == Row(total, speeds[i])
    ensures forall i :: 0 <= i < |speeds| ==> ChartFor(total, speeds)[i] * 3600.0 == TimeAt(total, speeds[i])
    decreases |speeds|
  {
    if |speeds| > 0 {
      var front := speeds[..|speeds| - 1];
      TableAt(total, front);
      assert forall i :: 0 <= i < |front| ==> front[i] == speeds[i];
    }
  }

  /** One pass of the loop over `speeds`: the row for `speed` and its chart value in hours. */
  method SpeedEntry(total: nat, speed: real) returns (row: SpeedRow, hours: real)
    requires speed > 0.0
    ensures row == Row(total, speed)
    ensures hours * 3600.0 == TimeAt(total, speed)
  {
    var timeAtSpeed := total as real / speed;
    if speed == 1.0 {
      row := SpeedRow(speed, timeAtSpeed.Floor, None);
    } else {
      var timeSaved := total as real - timeAtSpeed;
      row := SpeedRow(speed, timeAtSpeed.Floor, Some(timeSaved.Floor));
    }
    hours := timeAtSpeed / 3600.0;
  }

  /** The loop over `speeds`: one row and one chart value per speed, in order. */
  method SpeedTable(total: nat) returns (speedsData: seq<SpeedRow>, chartTimes: seq<real>)
    ensures speedsData == RowsFor(total, Speeds) && chartTimes == ChartFor(total, Speeds)
  {
    speedsData, chartTimes := [], [];
    for i := 0 to |Speeds|
      invariant speedsData == RowsFor(total, Speeds[..i]) && chartTimes == ChartFor(total, Speeds[..i])
    {
      var row, hours := SpeedEntry(total, Speeds[i]);
      assert Speeds[..i + 1][..i] == Speeds[..i];
      speedsData := speedsData + [row];
      chartTimes := chartTimes + [hours];
    }
    assert Speeds[..|Speeds|] == Speeds;
  }

  /** At every listed speed the time and the time saved add up to the total, and nothing is lost. */
  lemma SavedAddsUp(total: nat, i: nat)
    requires i < |Speeds|
    ensures TimeAt(total, Speeds[i]) + SavedAt(total, Speeds[i]) == total as real
    ensures 0.0 <= SavedAt(total, Speeds[i]) <= total as real
    ensures i > 0 && total > 0 ==> SavedAt(total, Speeds[i]) > 0.0
  {
  }

  /** Faster is shorter: the times strictly decrease along the table. */
  lemma TimesDecrease(total: nat, i: nat, j: nat)
    requires total > 0 && i < j < |Speeds|
    ensures TimeAt(total, Speeds[i]) > TimeAt(total, Speeds[j])
  {
    assert Speeds[i] < Speeds[j];
    var t := total as real;
    assert t / Speeds[i] * Speeds[i] == t && t / Speeds[j] * Speeds[j] == t;
  }

  /** The 1.0 row has no "saved" text; every other row's text starts with "Saves ". */
  lemma RowTexts(total: nat, i: nat)
    requires i < |Speeds|
    ensures Row(total, Speeds[i]).speed == Speeds[i]
    ensures i == 0 <==> Row(total, Speeds[i]).SavedText() == ""
    ensures i > 0 ==> Row(total, Speeds[i]).SavedText()[..6] == "Saves "
  {
  }

  /** Two hours at double speed take one hour and save one. */
  lemma ProjectionExample()
    ensures TimeAt(7200, 1.0) == 7200.0 && SavedAt(7200, 1.0) == 0.0
    ensures TimeAt(7200, 2.0) == 3600.0 && SavedAt(7200, 2.0) == 3600.0
  {
  }

  // ---------------------------------------------------------------------------
  // The whole calculation

  /** The values handed to `update_results_ui`. */
  datatype Report = Report(
    totalVideos: nat, rangeStart: int, rangeEnd: int, totalSeconds: nat,
    speedsData: seq<SpeedRow>, chartTimes: seq<real>)

  /** From the listed videos on: the range, the durations, the sum and the table. */
  function Summary(videos: seq<Entry>, start: Option<int>, end: Option<int>,
                   lookup: seq<string> -> Reply): Result<Report, Error>
  {
    var sel := Select(videos, start, end);
    match Durations(Ids(sel.videos), lookup)
    case Err(e) => Err(e)
    case Ok(durations) =>
      var total := Total(sel.videos, durations);
      if total == 0 then Err(NoDurations)
      else Ok(Report(|videos|, sel.startIdx + 1, sel.endIdx, total, RowsFor(total, Speeds), ChartFor(total, Speeds)))
  }

  /** What `_calculate_thread` computes: the report, or the exception it shows. */
  function Calculation(url: string, start: Option<int>, end: Option<int>,
                       pages: seq<Page>, lookup: seq<string> -> Reply): Result<Report, Error>
    requires Terminates(pages)
  {
    if Extract(url).None? then Err(InvalidUrl)
    else match Listing(pages)
      case Err(e) => Err(e)
      case Ok(videos) => if |videos| == 0 then Err(EmptyPlaylist) else Summary(videos, start, end, lookup)
  }

  /** Once the durations of the selection are resolved, the summary is decided by their sum. */
  lemma SummaryResolved(videos: seq<Entry>, start: Option<int>, end: Option<int>,
                        lookup: seq<string> -> Reply, durations: map<string, nat>)
    requires Durations(Ids(Select(videos, start, end).videos), lookup) == Ok(durations)
    ensures var sel := Select(videos, start, end);
      var total := Total(sel.videos, durations);
      && (total == 0 ==> Summary(videos, start, end, lookup) == Err(NoDurations))
      && (total > 0 ==>
            Summary(videos, start, end, lookup) == Ok(Report(|videos|, sel.startIdx + 1, sel.endIdx, total, RowsFor(total, Speeds), ChartFor(total, Speeds))))
  {
  }

  /** `_calculate_thread` without its progress-bar and message-box callbacks. */
  method CalculateThread(url: string, start: Option<int>, end: Option<int>,
                         pages: seq<Page>, lookup: seq<string> -> Reply)
    returns (r: Result<Report, Error>)
    requires Terminates(pages)
    ensures r == Calculation(url, start, end, pages, lookup)
  {
    var playlistId := Extract(url);
    ExtractIsId(url);
    CalculationStages(url, start, end, pages, lookup);
    if playlistId.None? || playlistId.value == "" {
      return Err(InvalidUrl);
    }
    var listing, _ := GetPlaylistVideos(playlistId.value, pages);
    if listing.Err? {
      return Err(listing.error);
    }
    var videos := listing.value;
    if |videos| == 0 {
      return Err(EmptyPlaylist);
    }
    r := Summarize(videos, start, end, lookup);
  }

  /** The rest of `_calculate_thread` once the videos are listed: range, durations, sum, table. */
  method Summarize(videos: seq<Entry>, start: Option<int>, end: Option<int>, lookup: seq<string> -> Reply)
    returns (r: Result<Report, Error>)
    ensures r == Summary(videos, start, end, lookup)
  {
    var sel := Select(videos, start, end);
    var resolved, _ := GetVideoDurations(Ids(sel.videos), lookup);
    if resolved.Err? {
      return Err(resolved.error);
    }
    var total := Total(sel.videos, resolved.value);
    SummaryResolved(videos, start, end, lookup, resolved.value);
    if total == 0 {
      return Err(NoDurations);
    }
    var speedsData, chartTimes := SpeedTable(total);
    r := Ok(Report(|videos|, sel.startIdx + 1, sel.endIdx, total, speedsData, chartTimes));
  }

  /**
   * The checks come in the thread's order: the URL, the listing, an empty
   * playlist; past them the outcome is decided by the listed videos alone.
   */
  lemma CalculationStages(url: string, start: Option<int>, end: Option<int>,
                          pages: seq<Page>, lookup: seq<string> -> Reply)
    requires Terminates(pages)
    ensures Extract(url).None? ==> Calculation(url, start, end, pages, lookup) == Err(InvalidUrl)
    ensures Extract(url).Some? && Listing(pages).Err? ==>
      Calculation(url, start, end, pages, lookup) == Err(Listing(pages).error)
    ensures Extract(url).Some? && Listing(pages) == Ok([]) ==>
      Calculation(url, start, end, pages, lookup) == Err(EmptyPlaylist)
    ensures Extract(url).Some? && Listing(pages).Ok? && |Listing(pages).value| > 0 ==>
      Calculation(url, start, end, pages, lookup) == Summary(Listing(pages).value, start, end, lookup)
  {
  }

  /**
   * A report always has a positive total that is the sum over the selection,
   * a 1-based range start, one row per speed, and a 1.0 row that is the total
   * itself with nothing saved.
   */
  lemma SummaryReport(videos: seq<Entry>, start: Option<int>, end: Option<int>, lookup: seq<string> -> Reply)
    requires Summary(videos, start, end, lookup).Ok?
    ensures var report := Summary(videos, start, end, lookup).value;
      var sel := Select(videos, start, end);
      && Durations(Ids(sel.videos), lookup).Ok?
      && report.totalVideos == |videos|
      && report.rangeStart >= 1 && report.rangeStart == sel.startIdx + 1 && report.rangeEnd == sel.endIdx
      && report.totalSeconds == Total(sel.videos, Durations(Ids(sel.videos), lookup).value) > 0
      && |report.speedsData| == |Speeds| == |report.chartTimes|
      && report.speedsData[0] == SpeedRow(1.0, report.totalSeconds, None)
  {
    var report := Summary(videos, start, end, lookup).value;
    TableAt(report.totalSeconds, Speeds);
  }

  /** With every selected video unresolved or of length zero, the result is NoDurations. */
  lemma SummaryNoDurations(videos: seq<Entry>, start: Option<int>, end: Option<int>, lookup: seq<string> -> Reply)
    requires var sel := Select(videos, start, end);
      && Durations(Ids(sel.videos), lookup).Ok?
      && forall i :: 0 <= i < |sel.videos| ==> Get(Durations(Ids(sel.videos), lookup).value, sel.videos[i].id) == 0
    ensures Summary(videos, start, end, lookup) == Err(NoDurations)
  {
    var sel := Select(videos, start, end);
    TotalZero(sel.videos, Durations(Ids(sel.videos), lookup).value);
  }

  /**
   * One resolved, non-zero video is enough: the others may be missing from
   * the replies and the calculation still succeeds, counting them as 0.
   */
  lemma SummarySucceeds(videos: seq<Entry>, start: Option<int>, end: Option<int>, lookup: seq<string> -> Reply, i: nat)
    requires var sel := Select(videos, start, end);
      && Durations(Ids(sel.videos), lookup).Ok?
      && i < |sel.videos| && Get(Durations(Ids(sel.videos), lookup).value, sel.videos[i].id) > 0
    ensures var r := Summary(videos, start, end, lookup);
      var sel := Select(videos, start, end);
      r.Ok? && r.value.totalSeconds >= Get(Durations(Ids(sel.videos), lookup).value, sel.videos[i].id)
  {
    var sel := Select(videos, start, end);
    TotalAtLeast(sel.videos, Durations(Ids(sel.videos), lookup).value, i);
  }

  /** A start past the last video selects nothing, so the result is NoDurations. */
  lemma SummaryStartPastEnd(videos: seq<Entry>, start: int, end: Option<int>, lookup: seq<string> -> Reply)
    requires start > |videos|
    ensures Summary(videos, Some(start), end, lookup) == Err(NoDurations)
  {
    var sel := Select(videos, Some(start), end);
    assert sel.videos == [];
    assert Ids(sel.videos) == [];
    DurationsOfNothing(lookup);
  }

  /** The table for one hour: at double speed half an hour, and half an hour saved. */
  lemma TableExample()
    ensures |RowsFor(3600, Speeds)| == 5 && |ChartFor(3600, Speeds)| == 5
    ensures RowsFor(3600, Speeds)[0] == SpeedRow(1.0, 3600, None)
    ensures RowsFor(3600, Speeds)[4] == SpeedRow(2.0, 1800, Some(1800))
    ensures ChartFor(3600, Speeds)[4] == 0.5
  {
    TableAt(3600, Speeds);
  }

  /** Both range fields empty: every video, numbered from 1 to the last. */
  lemma SelectEverything(videos: seq<Entry>)
    ensures var sel := Select(videos, None, None);
      sel.startIdx == 0 && sel.endIdx == |videos| && sel.videos == videos
  {
    assert videos[0..|videos|] == videos;
  }

  /** A single page with status 200 and no next token is the whole listing. */
  lemma ListingOnePage(pages: seq<Page>)
    requires |pages| == 1 && pages[0].status == 200 && pages[0].nextPageToken.None?
    ensures Terminates(pages) && Listing(pages) == Ok(pages[0].items)
  {
    ListingOk(pages, 0);
    assert Listing(pages) == Ok(Flatten(pages[..1]));
    assert pages[..1] == pages && pages[..1][..0] == [];
    assert Flatten(pages[..1][..0]) == [];
    assert Flatten(pages[..1]) == pages[0].items;
  }

  /** A reply of three items records each decoded duration under its id. */
  lemma RecordThree(a: Item, b: Item, c: Item, x: nat, y: nat, z: nat)
    requires Decode(a.duration) == Some(x) && Decode(b.duration) == Some(y) && Decode(c.duration) == Some(z)
    ensures Record(map[], [a, b, c]) == Ok(map[][a.id := x][b.id := y][c.id := z])
  {
    var items := [a, b, c];
    assert items[1..] == [b, c] && items[1..][1..] == [c] && items[1..][1..][1..] == [];
    var m := map[][a.id := x][b.id := y][c.id := z];
    assert Record(m, []) == Ok(m);
    assert Record(map[][a.id := x][b.id := y], [c]) == Record(m, []);
    assert Record(map[][a.id := x], [b, c]) == Record(map[][a.id := x][b.id := y], [c]);
    assert Record(map[], items) == Record(map[][a.id := x], [b, c]);
  }

  /** One batch of three ids whose reply decodes to 10, 20 and 30 minutes. */
  lemma ExampleDurations(lookup: seq<string> -> Reply, d1: string, d2: string, d3: string)
    requires lookup(["a", "b", "c"]) == Reply(200, [Item("a", d1), Item("b", d2), Item("c", d3)])
    requires Decode(d1) == Some(600) && Decode(d2) == Some(1200) && Decode(d3) == Some(1800)
    ensures Durations(["a", "b", "c"], lookup) == Ok(map["a" := 600, "b" := 1200, "c" := 1800])
  {
    var ids := ["a", "b", "c"];
    assert Batches(ids) == [ids] by {
      assert ids[..Min(BatchSize, 3)] == ids;
      assert ids[Min(BatchSize, 3)..] == [];
    }
    RecordThree(Item("a", d1), Item("b", d2), Item("c", d3), 600, 1200, 1800);
    assert map[]["a" := 600]["b" := 1200]["c" := 1800] == map["a" := 600, "b" := 1200, "c" := 1800];
  }

  /** The three example videos: their ids, and their sum at 10, 20 and 30 minutes. */
  lemma ExampleTotal(videos: seq<Entry>)
    requires videos == [Entry("a", "A"), Entry("b", "B"), Entry("c", "C")]
    ensures Ids(videos) == ["a", "b", "c"]
    ensures Total(videos, map["a" := 600, "b" := 1200, "c" := 1800]) == 3600
  {
    var m := map["a" := 600, "b" := 1200, "c" := 1800];
    assert videos[1..] == [Entry("b", "B"), Entry("c", "C")];
    assert videos[1..][1..] == [Entry("c", "C")];
    assert videos[1..][1..][1..] == [];
    assert Get(m, "a") == 600 && Get(m, "b") == 1200 && Get(m, "c") == 1800;
    assert Total(videos[1..][1..], m) == 1800;
    assert Total(videos[1..], m) == 3000;
  }

  /**
   * The whole calculation on a one-page playlist of three videos, both range
   * fields empty, whose durations decode to 10, 20 and 30 minutes ("PT10M",
   * "PT20M" and "PT30M" do, by the Duration examples): one hour in all.
   */
  lemma CalculationExample(url: string, pages: seq<Page>, lookup: seq<string> -> Reply, d1: string, d2: string, d3: string)
    requires Extract(url).Some?
    requires |pages| == 1 && pages[0].status == 200 && pages[0].nextPageToken.None?
    requires pages[0].items == [Entry("a", "A"), Entry("b", "B"), Entry("c", "C")]
    requires lookup(["a", "b", "c"]) == Reply(200, [Item("a", d1), Item("b", d2), Item("c", d3)])
    requires Decode(d1) == Some(600) && Decode(d2) == Some(1200) && Decode(d3) == Some(1800)
    ensures Terminates(pages)
    ensures var r := Calculation(url, None, None, pages, lookup);
      && r.Ok? && r.value.totalVideos == 3 && r.value.rangeStart == 1 && r.value.rangeEnd == 3
      && r.value.totalSeconds == 3600
  {
    ListingOnePage(pages);
    var videos := pages[0].items;
    SelectEverything(videos);
    ExampleTotal(videos);
    ExampleDurations(lookup, d1, d2, d3);
    CalculationStages(url, None, None, pages, lookup);
  }
}
