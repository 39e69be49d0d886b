/**
 * One run of `src/main.py`: the six-way movement table `change_emoji`,
 * and the loop over the configured targets that looks each one up on the
 * melon and genie charts, classifies its movement against the previous
 * run, and fills one current map per platform for the next run. A chart is
 * fetched, and its map saved, only when some target lists that platform.
 * Fetching the charts, the history files and the Slack message are outside
 * the model: the charts and the files are the method's input.
 */
module Run {
  import opened Wrappers
  import opened Seqs
  import opened Decimal
  import opened History
  import opened Targets
  import opened Matcher
  import opened Notifier

  /**
   * `change_emoji(prev, curr, had_history_file)`: off the chart, a first
   * entry or a re-entry (told apart by whether the history file existed),
   * up, down or unchanged.
   */
  function ChangeEmoji(prev: Option<int>, curr: Option<int>, hadHistoryFile: bool): (m: Movement)
    ensures m == Out <==> curr.None?
    ensures m == Reentry <==> curr.Some? && prev.None? && hadHistoryFile
    ensures m == New <==> curr.Some? && prev.None? && !hadHistoryFile
    ensures m == Up <==> curr.Some? && prev.Some? && curr.value < prev.value
    ensures m == Down <==> curr.Some? && prev.Some? && curr.value > prev.value
    ensures m == Same <==> curr.Some? && prev.Some? && curr.value == prev.value
  {
    if curr.None? then Out
    else if prev.None? then (if hadHistoryFile then Reentry else New)
    else if curr.value < prev.value then Up
    else if curr.value > prev.value then Down
    else Same
  }

  /** The label `change_emoji` returns beside the emoji. */
  function Label(m: Movement): string
  {
    match m
    case Out => "미진입"
    case Reentry => "재진입"
    case New => "진입"
    case Up => "상승"
    case Down => "하락"
    case Same => "유지"
  }

  /** Each movement has its own label. */
  lemma LabelInjective(m: Movement, n: Movement)
    requires Label(m) == Label(n)
    ensures m == n
  {
    assert Label(m)[0] == Label(n)[0];
  }

  /**
   * The two movement tables agree while the song is on the chart and the
   * previous rank is known or there was no history file. They differ off
   * the chart (🚫 here, ➖ in the notifier) and on a re-entry (🔁 here, 🆕
   * in the notifier, which has no history-file flag).
   */
  lemma ChangeEmojiVsDeltaEmoji(prev: Option<int>, curr: Option<int>, hadHistoryFile: bool)
    ensures curr.Some? && (prev.Some? || !hadHistoryFile) ==>
      ChangeEmoji(prev, curr, hadHistoryFile) == DeltaEmoji(prev, curr)
    ensures curr.None? ==> ChangeEmoji(prev, curr, hadHistoryFile) == Out && DeltaEmoji(prev, curr) == Same
    ensures curr.Some? && prev.None? && hadHistoryFile ==>
      ChangeEmoji(prev, curr, hadHistoryFile) == Reentry && DeltaEmoji(prev, curr) == New
  {
  }

  /**
   * One platform as a run sees it: its name, the chart rows fetched for
   * it (none when it was not fetched), the previous map read from its
   * history file, and whether that file existed.
   */
  datatype Platform = Platform(name: string, items: seq<ChartRow>, prevMap: map<string, int>, hadFile: bool)

  /** The platform's rank of a target: looked up only when the target lists the platform. */
  function PlatformRank(t: Target, p: Platform): (rank: Option<int>)
    ensures !Lists(t, p.name) ==> rank.None?
  {
    if Lists(t, p.name) then FindRankWithAlias(p.items, t.title, Some(t.artist), t.titleAliases, t.artistAliases)
    else None
  }

  /** A rank found is the rank of some row of the platform's chart. */
  lemma PlatformRankOnChart(t: Target, p: Platform)
    ensures PlatformRank(t, p).Some? ==>
      Lists(t, p.name) && exists i :: 0 <= i < |p.items| && p.items[i].rank == PlatformRank(t, p).value
  {
    if Lists(t, p.name) {
      ScanFirstHit(p.items, AliasQuery(t.title, Some(t.artist), t.titleAliases, t.artistAliases));
    }
  }

  /** `f"{rank} 위"`, or `미진입` for no rank. */
  function RankLabel(rank: Option<int>): string
  {
    if rank.Some? then IntToString(rank.value) + " 위" else "미진입"
  }

  /** What a run reports for one target on one platform. */
  datatype Status = Status(rank: Option<int>, prev: Option<int>, move: Movement, rankText: string)

  /**
   * The status of a target on a platform: its rank, the previous rank
   * stored under its key (a stored `-1` read as none), the movement between
   * them, and the rank text. A target that does not list the platform is
   * reported off the chart.
   */
  function StatusOf(t: Target, p: Platform): (s: Status)
    ensures s.move == Out <==> s.rank.None?
    ensures s.rank.None? ==> s.rankText == "미진입"
    ensures !Lists(t, p.name) ==> s.move == Out
    ensures s.prev.Some? ==> s.prev.value != -1
  {
    var rank := PlatformRank(t, p);
    var prev := PrevRank(p.prevMap, TargetKey(t));
    Status(rank, prev, ChangeEmoji(prev, rank, p.hadFile), RankLabel(rank))
  }

  /**
   * A `-1` stored for a target's key counts as no previous rank: a target
   * back on the chart is a re-entry when the history file existed.
   */
  lemma SentinelClassified(t: Target, p: Platform)
    requires TargetKey(t) in p.prevMap && p.prevMap[TargetKey(t)] == -1
    requires PlatformRank(t, p).Some?
    ensures StatusOf(t, p).prev.None?
    ensures StatusOf(t, p).move == (if p.hadFile then Reentry else New)
  {
  }

  /** The per-target line of the run: the target's title and artist and its two statuses. */
  datatype Report = Report(title: string, artist: string, melon: Status, genie: Status)

  function ReportOf(t: Target, melon: Platform, genie: Platform): Report
  {
    Report(t.title, t.artist, StatusOf(t, melon), StatusOf(t, genie))
  }

  /** One report per target, in the targets' order. */
  function Reports(targets: seq<Target>, melon: Platform, genie: Platform): seq<Report>
  {
    MapSeq(t => ReportOf(t, melon, genie), targets)
  }

  /** The report at position `i` is the report of target `i`. */
  lemma ReportsAt(targets: seq<Target>, melon: Platform, genie: Platform, i: nat)
    requires i < |targets|
    ensures |Reports(targets, melon, genie)| == |targets|
    ensures Reports(targets, melon, genie)[i] == ReportOf(targets[i], melon, genie)
  {
    MapSeqAt(t => ReportOf(t, melon, genie), targets, i);
  }

  /** What the loop stores for a target that lists the platform: its key and its rank, or `-1`. */
  function PlatformEntry(t: Target, p: Platform): (string, int)
  {
    (TargetKey(t), EncodeRank(PlatformRank(t, p)))
  }

  /** The current map of a platform after the loop has seen `targets`. */
  function CurrMap(targets: seq<Target>, p: Platform): map<string, int>
  {
    Assign(targets, t => Lists(t, p.name), t => PlatformEntry(t, p))
  }

  /** The current map has a key for each target that lists the platform and no other. */
  lemma CurrMapKeys(targets: seq<Target>, p: Platform)
    ensures CurrMap(targets, p).Keys == set j | 0 <= j < |targets| && Lists(targets[j], p.name) :: TargetKey(targets[j])
  {
    AssignKeys(targets, t => Lists(t, p.name), t => PlatformEntry(t, p));
  }

  /** When no target lists the platform its current map is empty. */
  lemma CurrMapEmpty(targets: seq<Target>, p: Platform)
    requires forall j :: 0 <= j < |targets| ==> !Lists(targets[j], p.name)
    ensures CurrMap(targets, p) == map[]
  {
    CurrMapKeys(targets, p);
  }

  /**
   * The value under a key is what the last target with that key listing
   * the platform wrote: its rank, or `-1` when it was not found.
   */
  lemma CurrMapLast(targets: seq<Target>, p: Platform, j: nat)
    requires j < |targets| && Lists(targets[j], p.name)
    requires forall m :: j < m < |targets| && Lists(targets[m], p.name) ==> TargetKey(targets[m]) != TargetKey(targets[j])
    ensures TargetKey(targets[j]) in CurrMap(targets, p)
    ensures CurrMap(targets, p)[TargetKey(targets[j])] == EncodeRank(PlatformRank(targets[j], p))
  {
    AssignLast(targets, t => Lists(t, p.name), t => PlatformEntry(t, p), j);
  }

  /** Every stored value is `-1` or the rank of a row of the platform's chart. */
  lemma CurrMapValues(targets: seq<Target>, p: Platform, k: string)
    requires k in CurrMap(targets, p)
    ensures CurrMap(targets, p)[k] == -1 || exists i :: 0 <= i < |p.items| && p.items[i].rank == CurrMap(targets, p)[k]
  {
    AssignValues(targets, t => Lists(t, p.name), t => PlatformEntry(t, p), k);
    var j :| 0 <= j < |targets| && Lists(targets[j], p.name) && PlatformEntry(targets[j], p) == (k, CurrMap(targets, p)[k]);
    PlatformRankOnChart(targets[j], p);
  }

  /**
   * The next run reads back this run's rank: once the map is saved, the
   * previous rank it gives for the last target with a key is that
   * target's rank now (none when it was not found).
   */
  lemma NextRunPrev(targets: seq<Target>, p: Platform, j: nat)
    requires j < |targets| && Lists(targets[j], p.name)
    requires forall m :: j < m < |targets| && Lists(targets[m], p.name) ==> TargetKey(targets[m]) != TargetKey(targets[j])
    requires PlatformRank(targets[j], p) != Some(-1)
    ensures PrevRank(CurrMap(targets, p), TargetKey(targets[j])) == PlatformRank(targets[j], p)
  {
    CurrMapLast(targets, p, j);
    SentinelRoundTrip(PlatformRank(targets[j], p));
  }

  /** `[t for t in targets if platform in t.get("platforms", [])]`. */
  function Listing(targets: seq<Target>, name: string): (r: seq<Target>)
    ensures |r| <= |targets|
  {
    if targets == [] then []
    else (if Lists(targets[0], name) then [targets[0]] else []) + Listing(targets[1..], name)
  }

  /** The listing is empty exactly when no target lists the platform. */
  lemma {:induction false} ListingEmpty(targets: seq<Target>, name: string)
    ensures Listing(targets, name) == [] <==> forall i :: 0 <= i < |targets| ==> !Lists(targets[i], name)
  {
    if targets != [] {
      ListingEmpty(targets[1..], name);
      if !Lists(targets[0], name) {
        forall i | 0 < i < |targets| ensures Lists(targets[i], name) == Lists(targets[1..][i - 1], name) {
        }
      }
    }
  }

  /**
   * The loop over the targets of `main`: for each target, the rank on each
   * platform it lists (written into that platform's current map), the
   * previous ranks, the movements and the rank texts.
   */
  method TargetLoop(targets: seq<Target>, melon: Platform, genie: Platform)
    returns (reports: seq<Report>, melonCurr: map<string, int>, genieCurr: map<string, int>)
    ensures reports == Reports(targets, melon, genie)
    ensures melonCurr == CurrMap(targets, melon)
    ensures genieCurr == CurrMap(targets, genie)
  {
    reports := [];
    melonCurr := map[];
    genieCurr := map[];
    for i := 0 to |targets|
      invariant reports == Reports(targets[..i], melon, genie)
      invariant melonCurr == CurrMap(targets[..i], melon)
      invariant genieCurr == CurrMap(targets[..i], genie)
    {
      var t := targets[i];
      var key := TargetKey(t);
      var melonRank: Option<int> := None;
      if Lists(t, melon.name) {
        melonRank := FindRankWithAlias(melon.items, t.title, Some(t.artist), t.titleAliases, t.artistAliases);
        melonCurr := melonCurr[key := EncodeRank(melonRank)];
      }
      var genieRank: Option<int> := None;
      if Lists(t, genie.name) {
        genieRank := FindRankWithAlias(genie.items, t.title, Some(t.artist), t.titleAliases, t.artistAliases);
        genieCurr := genieCurr[key := EncodeRank(genieRank)];
      }
      var melonPrev := PrevRank(melon.prevMap, key);
      var geniePrev := PrevRank(genie.prevMap, key);
      var melonMove := ChangeEmoji(melonPrev, melonRank, melon.hadFile);
      var genieMove := ChangeEmoji(geniePrev, genieRank, genie.hadFile);
      var melonStatus := Status(melonRank, melonPrev, melonMove, RankLabel(melonRank));
      var genieStatus := Status(genieRank, geniePrev, genieMove, RankLabel(genieRank));
      assert melonStatus == StatusOf(t, melon);
      assert genieStatus == StatusOf(t, genie);
      MapSeqStep(t => ReportOf(t, melon, genie), targets, i);
      AssignStep(targets, t => Lists(t, melon.name), t => PlatformEntry(t, melon), i);
      AssignStep(targets, t => Lists(t, genie.name), t => PlatformEntry(t, genie), i);
      reports := reports + [Report(t.title, t.artist, melonStatus, genieStatus)];
    }
    assert targets[..|targets|] == targets;
  }

  /**
   * `main`, without the clock, the console and the Slack message: a
   * platform's chart is fetched only when some target lists it; the loop
   * reports every target; a platform's current map is saved exactly when
   * its chart was fetched.
   */
  method RunMain(targets: seq<Target>, melonChart: seq<ChartRow>, genieChart: seq<ChartRow>,
                 melonFile: HistoryFile, genieFile: HistoryFile)
    returns (melonFetched: bool, genieFetched: bool, reports: seq<Report>,
             melonSaved: Option<map<string, int>>, genieSaved: Option<map<string, int>>)
    ensures melonFetched <==> exists i :: 0 <= i < |targets| && Lists(targets[i], "melon")
    ensures genieFetched <==> exists i :: 0 <= i < |targets| && Lists(targets[i], "genie")
    ensures var melon := Platform("melon", if melonFetched then melonChart else [], LoadPrev(melonFile), HadFile(melonFile));
      var genie := Platform("genie", if genieFetched then genieChart else [], LoadPrev(genieFile), HadFile(genieFile));
      && reports == Reports(targets, melon, genie)
      && (melonSaved.Some? <==> melonFetched)
      && (melonSaved.Some? ==> melonSaved.value == CurrMap(targets, melon))
      && (genieSaved.Some? <==> genieFetched)
      && (genieSaved.Some? ==> genieSaved.value == CurrMap(targets, genie))
  {
    var melonTargets := Listing(targets, "melon");
    var genieTargets := Listing(targets, "genie");
    ListingEmpty(targets, "melon");
    ListingEmpty(targets, "genie");
    melonFetched := melonTargets != [];
    genieFetched := genieTargets != [];
    var melonItems := if melonFetched then melonChart else [];
    var genieItems := if genieFetched then genieChart else [];
    var melon := Platform("melon", melonItems, LoadPrev(melonFile), HadFile(melonFile));
    var genie := Platform("genie", genieItems, LoadPrev(genieFile), HadFile(genieFile));
    var melonCurr, genieCurr;
    reports, melonCurr, genieCurr := TargetLoop(targets, melon, genie);
    melonSaved := if melonFetched then Some(melonCurr) else None;
    genieSaved := if genieFetched then Some(genieCurr) else None;
  }

  /**
   * Every target is reported, in order, and a target that does not list a
   * platform is reported off that platform's chart.
   */
  lemma RunReportsOut(targets: seq<Target>, melon: Platform, genie: Platform, i: nat)
    requires i < |targets|
    ensures var r := Reports(targets, melon, genie)[i];
      && r.title == targets[i].title && r.artist == targets[i].artist
      && (!Lists(targets[i], melon.name) ==> r.melon.move == Out && r.melon.rankText == "미진입")
      && (!Lists(targets[i], genie.name) ==> r.genie.move == Out && r.genie.rankText == "미진입")
  {
    ReportsAt(targets, melon, genie, i);
  }
}
