/**
 * The Slack message builder of src/notifier.py: the movement emoji of one
 * song (`_delta_emoji`), its row text, the block list of a platform
 * message and the two loops of `notify_platform_ranks` that build the
 * current-rank map and the rows. Posting to Slack and the JSON history
 * file are outside the model: the post's outcome and the file's state are
 * inputs, and the history the call would save is an output.
 */
module Notifier {
  import opened Wrappers
  import opened Text
  import opened Decimal
  import opened History
  import opened Seqs

  /**
   * `_delta_emoji(prev, curr)`: new entry, up (a smaller rank number),
   * down, or unchanged; a song that is not on the chart now is shown as
   * unchanged.
   */
  function DeltaEmoji(prev: Option<int>, curr: Option<int>): (m: Movement)
    ensures m == New <==> prev.None? && curr.Some?
    ensures m == Up <==> prev.Some? && curr.Some? && curr.value < prev.value
    ensures m == Down <==> prev.Some? && curr.Some? && curr.value > prev.value
    ensures m == Same <==> curr.None? || (prev.Some? && curr.value == prev.value)
  {
    if prev.None? && curr.Some? then New
    else if prev.Some? && curr.Some? then
      if curr.value < prev.value then Up
      else if curr.value > prev.value then Down
      else Same
    else Same
  }

  /** `str.capitalize` for ASCII: the first letter upper-case, the rest lower-case. */
  function Capitalize(s: string): (r: string)
    ensures |r| == |s|
    ensures s != [] && 'a' <= s[0] <= 'z' ==> 'A' <= r[0] <= 'Z'
    ensures forall i :: 1 <= i < |r| ==> !('A' <= r[i] <= 'Z')
    ensures s != [] ==> r[0] == UpperChar(s[0])
    ensures forall i :: 1 <= i < |s| ==> r[i] == LowerChar(s[i])
  {
    if s == [] then [] else [UpperChar(s[0])] + Lower(s[1..])
  }

  /** The two platforms appear in headers and buttons as `Melon` and `Genie`. */
  lemma CapitalizePlatforms()
    ensures Capitalize("melon") == "Melon" && Capitalize("genie") == "Genie"
  {
    assert "melon"[1..] == "elon" && "genie"[1..] == "enie";
  }

  const MelonChartUrl: string := "https://www.melon.com/chart/index.htm"
  const GenieChartUrl: string := "https://www.genie.co.kr/chart/top200"
  const FallbackUrl: string := "https://google.com"

  /** `PLATFORM_LINKS`. */
  const PlatformLinks: map<string, string> := map["melon" := MelonChartUrl, "genie" := GenieChartUrl]

  /** `PLATFORM_LINKS.get(platform, "https://google.com")`. */
  function PlatformLink(platform: string): (url: string)
    ensures platform == "melon" ==> url == MelonChartUrl
    ensures platform == "genie" ==> url == GenieChartUrl
    ensures platform != "melon" && platform != "genie" ==> url == FallbackUrl
  {
    if platform in PlatformLinks then PlatformLinks[platform] else FallbackUrl
  }

  /** `f"{rank}위"`, or `미진입` when the song is not on the chart. */
  function RankText(rank: Option<int>): string
  {
    if rank.Some? then IntToString(rank.value) + "위" else "미진입"
  }

  /** `f"(prev {prev})"`, or nothing without a previous rank. */
  function PrevText(prev: Option<int>): string
  {
    if prev.Some? then "(prev " + IntToString(prev.value) + ")" else ""
  }

  /** The part of a row text before the previous rank: emoji, then artist, title and rank text in bold. */
  function RowBody(title: string, artist: string, rank: Option<int>, prev: Option<int>): string
  {
    Emoji(DeltaEmoji(prev, rank)) + " *" + artist + "* — *" + title + "* · *" + RankText(rank) + "*"
  }

  /** The line `_build_row_text` formats before its final `strip()`. */
  function RowLine(title: string, artist: string, rank: Option<int>, prev: Option<int>): string
  {
    RowBody(title, artist, rank, prev) + " " + PrevText(prev)
  }

  /**
   * `_build_row_text(title, artist, rank, prev)`: the row body, then the
   * previous rank after a space only when there is one.
   */
  function BuildRowText(title: string, artist: string, rank: Option<int>, prev: Option<int>): (r: string)
    ensures |r| >= 2 && !IsSpace(r[0]) && !IsSpace(r[|r| - 1])
  {
    RowBodyEnds(title, artist, rank, prev);
    PrevTextEnds(prev);
    if prev.Some? then RowBody(title, artist, rank, prev) + " " + PrevText(prev)
    else RowBody(title, artist, rank, prev)
  }

  lemma RowBodyEnds(title: string, artist: string, rank: Option<int>, prev: Option<int>)
    ensures var body := RowBody(title, artist, rank, prev);
      && |body| >= 2 && !IsSpace(body[0]) && body[|body| - 1] == '*'
  {
  }

  lemma PrevTextEnds(prev: Option<int>)
    ensures prev.Some? ==> |PrevText(prev)| >= 2 && PrevText(prev)[|PrevText(prev)| - 1] == ')'
    ensures prev.None? ==> PrevText(prev) == ""
  {
  }

  /**
   * The row text is the formatted line after `strip()`: with a previous
   * rank there is nothing to remove; without one, `strip()` removes just
   * the space left before the empty previous-rank part.
   */
  lemma BuildRowTextIsStripped(title: string, artist: string, rank: Option<int>, prev: Option<int>)
    ensures BuildRowText(title, artist, rank, prev) == Strip(RowLine(title, artist, rank, prev))
  {
    var body := RowBody(title, artist, rank, prev);
    var tail := PrevText(prev);
    RowBodyEnds(title, artist, rank, prev);
    PrevTextEnds(prev);
    var full := body + " " + tail;
    if prev.Some? {
      assert full[0] == body[0] && full[|full| - 1] == tail[|tail| - 1];
      StripNoOp(full);
    } else {
      assert full == body + " ";
      StripTrailingSpace(body);
    }
  }

  datatype Button = Button(text: string, url: string)

  /** A Slack block: a header, a markdown section, or a row of buttons. */
  datatype Block = Header(text: string) | Section(text: string) | Actions(elements: seq<Button>)

  /** One row of a platform message: title, artist, current rank, previous rank. */
  datatype Row = Row(title: string, artist: string, curr: Option<int>, prev: Option<int>)

  function RowText(row: Row): string
  {
    BuildRowText(row.title, row.artist, row.curr, row.prev)
  }

  /** `if tweet_preset:` — present and not empty. */
  predicate Truthy(preset: Option<string>)
  {
    preset.Some? && preset.value != ""
  }

  function SectionOf(row: Row): Block
  {
    Section(RowText(row))
  }

  /** `https://twitter.com/intent/tweet?text=` followed by the quoted preset. */
  function TweetUrl(quoted: string): string
  {
    "https://twitter.com/intent/tweet?text=" + quoted
  }

  /**
   * The buttons: the first opens the platform's chart; a second one, the
   * tweet link, is there exactly when the preset is non-empty.
   */
  function Buttons(platform: string, tweetPreset: Option<string>, quote: string -> string): (buttons: seq<Button>)
    ensures 1 <= |buttons| <= 2
    ensures buttons[0].url == PlatformLink(platform)
    ensures |buttons| == 2 <==> Truthy(tweetPreset)
    ensures |buttons| == 2 ==> buttons[1].url == TweetUrl(quote(tweetPreset.value))
  {
    var open := Button("열기: " + Capitalize(platform) + " 차트", PlatformLink(platform));
    if Truthy(tweetPreset) then [open, Button("X(트위터) 작성", TweetUrl(quote(tweetPreset.value)))]
    else [open]
  }

  /** The block list of `_build_blocks`: a header, the sections, and last the buttons. */
  function Blocks(platform: string, headerText: string, rows: seq<Row>,
                  tweetPreset: Option<string>, quote: string -> string): seq<Block>
  {
    [Header(headerText)] + MapSeq(SectionOf, rows) + [Actions(Buttons(platform, tweetPreset, quote))]
  }

  /**
   * A message has two blocks more than rows: the header first, the section
   * of row `i` at position `i + 1`, and the buttons last.
   */
  lemma BlocksShape(platform: string, headerText: string, rows: seq<Row>,
                    tweetPreset: Option<string>, quote: string -> string)
    ensures var blocks := Blocks(platform, headerText, rows, tweetPreset, quote);
      && |blocks| == |rows| + 2
      && blocks[0] == Header(headerText)
      && (forall i :: 0 <= i < |rows| ==> blocks[i + 1] == Section(RowText(rows[i])))
      && blocks[|rows| + 1] == Actions(Buttons(platform, tweetPreset, quote))
  {
    var blocks := Blocks(platform, headerText, rows, tweetPreset, quote);
    forall i | 0 <= i < |rows| ensures blocks[i + 1] == Section(RowText(rows[i])) {
      MapSeqAt(SectionOf, rows, i);
    }
  }

  /**
   * `_build_blocks`: appends the header, one section per row, then the
   * buttons. `quote` stands for `urllib.parse.quote`.
   */
  method BuildBlocks(platform: string, headerText: string, rows: seq<Row>,
                     tweetPreset: Option<string>, quote: string -> string)
    returns (blocks: seq<Block>)
    ensures blocks == Blocks(platform, headerText, rows, tweetPreset, quote)
  {
    blocks := [Header(headerText)];
    for i := 0 to |rows|
      invariant blocks == [Header(headerText)] + MapSeq(SectionOf, rows[..i])
    {
      MapSeqStep(SectionOf, rows, i);
      blocks := blocks + [Section(RowText(rows[i]))];
    }
    assert rows[..|rows|] == rows;
    var actions := [Button("열기: " + Capitalize(platform) + " 차트", PlatformLink(platform))];
    if Truthy(tweetPreset) {
      var url := TweetUrl(quote(tweetPreset.value));
      actions := actions + [Button("X(트위터) 작성", url)];
    }
    assert actions == Buttons(platform, tweetPreset, quote);
    blocks := blocks + [Actions(actions)];
  }

  /**
   * One entry of `results`: a title, an `artists` list, an `artist`
   * string and a rank; missing fields are the empty string, the empty list
   * and `None`.
   */
  datatype ResultItem = ResultItem(title: string, artists: seq<string>, artist: string, rank: Option<int>)

  function ItemTitle(it: ResultItem): string
  {
    Strip(it.title)
  }

  /**
   * The artist of an item: the first of a non-empty `artists` list, else
   * the stripped `artist` field; stripped again.
   */
  function ItemArtist(it: ResultItem): string
  {
    var artistList := if it.artists != [] then it.artists else [Strip(it.artist)];
    Strip(artistList[0])
  }

  /** The second `strip()` only matters for the `artists` list. */
  lemma ItemArtistChoice(it: ResultItem)
    ensures it.artists != [] ==> ItemArtist(it) == Strip(it.artists[0])
    ensures it.artists == [] ==> ItemArtist(it) == Strip(it.artist)
  {
    StripIdempotent(it.artist);
  }

  function ItemKey(it: ResultItem): string
  {
    ResultKey(ItemTitle(it), ItemArtist(it))
  }

  /** What the first loop stores for one item: its key and its rank, or `-1`. */
  function ItemEntry(it: ResultItem): (string, int)
  {
    (ItemKey(it), EncodeRank(it.rank))
  }

  /** The current map the first loop builds. */
  function NotifyCurrMap(results: seq<ResultItem>): map<string, int>
  {
    Assign(results, _ => true, ItemEntry)
  }

  /** The current map has a key for each item and no other. */
  lemma NotifyCurrMapKeys(results: seq<ResultItem>)
    ensures NotifyCurrMap(results).Keys == set j | 0 <= j < |results| :: ItemKey(results[j])
  {
    AssignKeys(results, _ => true, ItemEntry);
    assert (set j | 0 <= j < |results| :: ItemEntry(results[j]).0)
        == set j | 0 <= j < |results| :: ItemKey(results[j]);
  }

  /** A key's value is the rank of the last item with that key, `-1` when that item has no rank. */
  lemma NotifyCurrMapLast(results: seq<ResultItem>, j: nat)
    requires j < |results|
    requires forall m :: j < m < |results| ==> ItemKey(results[m]) != ItemKey(results[j])
    ensures ItemKey(results[j]) in NotifyCurrMap(results)
    ensures NotifyCurrMap(results)[ItemKey(results[j])] == EncodeRank(results[j].rank)
  {
    AssignLast(results, _ => true, ItemEntry, j);
  }

  /** The row the second loop appends for one item. */
  function ItemRow(it: ResultItem, prevMap: map<string, int>): Row
  {
    Row(ItemTitle(it), ItemArtist(it), it.rank, PrevRank(prevMap, ItemKey(it)))
  }

  /** The rows of the second loop, one per item in order. */
  function ItemRows(results: seq<ResultItem>, prevMap: map<string, int>): seq<Row>
  {
    MapSeq(it => ItemRow(it, prevMap), results)
  }

  /** The first loop of `notify_platform_ranks`: each item's key mapped to its rank or `-1`. */
  method CurrentMap(results: seq<ResultItem>) returns (currMap: map<string, int>)
    ensures currMap == NotifyCurrMap(results)
  {
    currMap := map[];
    for i := 0 to |results|
      invariant currMap == NotifyCurrMap(results[..i])
    {
      var it := results[i];
      AssignStep(results, _ => true, ItemEntry, i);
      currMap := currMap[ItemKey(it) := EncodeRank(it.rank)];
    }
    assert results[..|results|] == results;
  }

  /** The second loop of `notify_platform_ranks`: one row per item, in order. */
  method DisplayRows(results: seq<ResultItem>, prevMap: map<string, int>) returns (rows: seq<Row>)
    ensures rows == ItemRows(results, prevMap)
  {
    rows := [];
    for i := 0 to |results|
      invariant rows == ItemRows(results[..i], prevMap)
    {
      MapSeqStep(it => ItemRow(it, prevMap), results, i);
      rows := rows + [ItemRow(results[i], prevMap)];
    }
    assert results[..|results|] == results;
  }

  /**
   * `notify_platform_ranks`: builds the current map and one row per
   * result in input order, then the blocks and the fallback text from the
   * rows, posts the message, and saves the map when `save_history` is set.
   * A failed post raises before the save, so nothing is saved then.
   */
  method NotifyPlatformRanks(platform: string, results: seq<ResultItem>, title: string,
                             saveHistory: bool, tweetPreset: Option<string>,
                             historyFile: HistoryFile, posted: bool, quote: string -> string)
    returns (blocks: seq<Block>, textFallback: string, saved: Option<map<string, int>>)
    ensures var header := "[" + Capitalize(platform) + "] " + title;
      var rows := ItemRows(results, LoadPrev(historyFile));
      && blocks == Blocks(platform, header, rows, tweetPreset, quote)
      && textFallback == header + "\n" + Join(MapSeq(RowText, rows), '\n')
    ensures saved.Some? <==> posted && saveHistory
    ensures saved.Some? ==> saved.value == NotifyCurrMap(results)
  {
    var currMap := CurrentMap(results);
    var prevMap := LoadPrev(historyFile);
    var rows := DisplayRows(results, prevMap);
    var header := "[" + Capitalize(platform) + "] " + title;
    blocks := BuildBlocks(platform, header, rows, tweetPreset, quote);
    textFallback := header + "\n" + Join(MapSeq(RowText, rows), '\n');
    if posted && saveHistory {
      saved := Some(currMap);
    } else {
      saved := None;
    }
  }

  /**
   * The message shows one section per result in input order, with the
   * result's stripped title and artist, its current rank and the rank
   * stored for its key in the history file (none for `-1` or no entry).
   */
  lemma NotifySectionOf(platform: string, results: seq<ResultItem>, title: string,
                        tweetPreset: Option<string>, historyFile: HistoryFile,
                        quote: string -> string, i: nat)
    requires i < |results|
    ensures var prevMap := LoadPrev(historyFile);
      var blocks := Blocks(platform, "[" + Capitalize(platform) + "] " + title,
                           ItemRows(results, prevMap), tweetPreset, quote);
      && |blocks| == |results| + 2
      && blocks[i + 1] == Section(BuildRowText(Strip(results[i].title), ItemArtist(results[i]),
                                               results[i].rank, PrevRank(prevMap, ItemKey(results[i]))))
  {
    var prevMap := LoadPrev(historyFile);
    var rows := ItemRows(results, prevMap);
    MapSeqAt(it => ItemRow(it, prevMap), results, i);
    BlocksShape(platform, "[" + Capitalize(platform) + "] " + title, rows, tweetPreset, quote);
  }
}
