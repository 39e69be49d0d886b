/**
 * The pure helpers of src/crawler_youtube.py: picking the 11-character
 * video id out of a link or a bare id (`extract_video_id`), cutting a list
 * into fixed-size chunks (`_chunks`), and collecting the video id of every
 * target that has one (`collect_video_ids_from_targets`). The API calls
 * that use them are outside the model.
 */
module Youtube {
  import opened Wrappers
  import opened Seqs
  import opened Text
  import opened History
  import opened Targets

  /** `[0-9A-Za-z_-]`, the characters of a video id. */
  predicate IsIdChar(c: char)
  {
    '0' <= c <= '9' || 'A' <= c <= 'Z' || 'a' <= c <= 'z' || c == '_' || c == '-'
  }

  /** `\w`, for ASCII: letters, digits and `_`. */
  predicate IsWordChar(c: char)
  {
    '0' <= c <= '9' || 'A' <= c <= 'Z' || 'a' <= c <= 'z' || c == '_'
  }

  /** Exactly eleven id characters. */
  predicate IsId(s: string)
  {
    |s| == 11 && forall i :: 0 <= i < |s| ==> IsIdChar(s[i])
  }

  /** `(?:v=|\/)` at position `k`: the length it matches, or 0 when neither alternative does. */
  function LeadAt(s: string, k: nat): (n: nat)
    ensures n <= 2
    ensures n > 0 ==> k + n <= |s|
  {
    if k + 2 <= |s| && s[k] == 'v' && s[k + 1] == '=' then 2
    else if k < |s| && s[k] == '/' then 1
    else 0
  }

  /** `(?:[^\w-]|$)` at position `e`. */
  predicate TailAt(s: string, e: nat)
  {
    e == |s| || (e < |s| && !IsWordChar(s[e]) && s[e] != '-')
  }

  /** The first pattern matches at position `k`: a lead, eleven id characters, then a tail. */
  predicate MatchAt(s: string, k: nat)
  {
    var lead := LeadAt(s, k);
    lead > 0 && k + lead + 11 <= |s| && IsId(s[k + lead..k + lead + 11]) && TailAt(s, k + lead + 11)
  }

  /** The captured group of a match at `k`. */
  function GroupAt(s: string, k: nat): (g: string)
    requires MatchAt(s, k)
    ensures IsId(g)
  {
    s[k + LeadAt(s, k)..k + LeadAt(s, k) + 11]
  }

  /** `re.search` of the first pattern from position `k` on: the group of the leftmost match. */
  function SearchFrom(s: string, k: nat): (r: Option<string>)
    requires k <= |s|
    ensures r.Some? ==> IsId(r.value)
    decreases |s| - k
  {
    if MatchAt(s, k) then Some(GroupAt(s, k))
    else if k == |s| then None
    else SearchFrom(s, k + 1)
  }

  /** `j` is the leftmost position at or after `k` where the first pattern matches. */
  predicate FirstMatchAt(s: string, k: nat, j: nat)
  {
    k <= j <= |s| && MatchAt(s, j) && forall i :: k <= i < j ==> !MatchAt(s, i)
  }

  /** The search finds the leftmost match at or after `k`, and nothing when there is none. */
  lemma {:induction false} SearchFirstMatch(s: string, k: nat)
    requires k <= |s|
    ensures SearchFrom(s, k).None? <==> forall j :: k <= j <= |s| ==> !MatchAt(s, j)
    ensures SearchFrom(s, k).Some? ==>
      exists j :: FirstMatchAt(s, k, j) && SearchFrom(s, k).value == GroupAt(s, j)
    decreases |s| - k
  {
    if MatchAt(s, k) {
      assert FirstMatchAt(s, k, k);
    } else if k < |s| {
      SearchFirstMatch(s, k + 1);
      if SearchFrom(s, k + 1).Some? {
        var j: nat :| FirstMatchAt(s, k + 1, j) && SearchFrom(s, k + 1).value == GroupAt(s, j);
        assert FirstMatchAt(s, k, j);
      }
    }
  }

  /**
   * `extract_video_id`: nothing for an empty input; otherwise, on the
   * stripped input, the group of the first pattern's leftmost match, else
   * the whole string when it is exactly an id.
   */
  function ExtractVideoId(raw: string): (r: Option<string>)
    ensures raw == [] ==> r.None?
    ensures r.Some? ==> IsId(r.value)
  {
    if raw == [] then None
    else
      var s := Strip(raw);
      var m := SearchFrom(s, 0);
      if m.Some? then m
      else if IsId(s) then Some(s)
      else None
  }

  /** An id found is a piece of the stripped input. */
  lemma ExtractOccurs(raw: string)
    ensures ExtractVideoId(raw).Some? ==> Contains(Strip(raw), ExtractVideoId(raw).value)
  {
    if raw != [] {
      var s := Strip(raw);
      SearchFirstMatch(s, 0);
      if SearchFrom(s, 0).Some? {
        var j: nat :| FirstMatchAt(s, 0, j) && SearchFrom(s, 0).value == GroupAt(s, j);
        assert OccursAt(s, GroupAt(s, j), j + LeadAt(s, j));
        ContainsAt(s, GroupAt(s, j));
      } else if IsId(s) {
        ContainsEmptyAndSelf(s);
      }
    }
  }

  /** A string of id characters holds no `/` and no `=`, so the first pattern never matches in it. */
  lemma NoLeadInIdChars(s: string)
    requires forall i :: 0 <= i < |s| ==> IsIdChar(s[i])
    ensures forall j :: 0 <= j <= |s| ==> !MatchAt(s, j)
  {
    forall j | 0 <= j <= |s| ensures LeadAt(s, j) == 0 {
      if j < |s| {
        assert IsIdChar(s[j]);
      }
      if j + 1 < |s| {
        assert IsIdChar(s[j + 1]);
      }
    }
  }

  /** An input that is an id once stripped comes back as that id. */
  lemma ExtractBareId(raw: string)
    requires IsId(Strip(raw))
    ensures ExtractVideoId(raw) == Some(Strip(raw))
  {
    var s := Strip(raw);
    NoLeadInIdChars(s);
    SearchFirstMatch(s, 0);
  }

  /**
   * A short link `p/ID`, with no `/` or `=` before the last slash and no
   * whitespace in front, gives `ID`.
   */
  lemma ExtractShortLink(p: string, id: string)
    requires IsId(id)
    requires forall i :: 0 <= i < |p| ==> p[i] != '/' && p[i] != '='
    requires p == [] || !IsSpace(p[0])
    ensures ExtractVideoId(p + "/" + id) == Some(id)
  {
    var s := p + "/" + id;
    assert IsIdChar(id[10]) && s[|s| - 1] == id[10];
    assert s[0] == (if p == [] then '/' else p[0]);
    StripNoOp(s);
    assert s[|p|] == '/' && s[|p| + 1..|p| + 12] == id;
    assert MatchAt(s, |p|);
    forall j | 0 <= j < |p| ensures !MatchAt(s, j) {
      assert s[j] == p[j];
      if j + 1 < |p| {
        assert s[j + 1] == p[j + 1];
      } else {
        assert s[j + 1] == '/';
      }
    }
    SearchFirstMatch(s, 0);
    var j: nat :| FirstMatchAt(s, 0, j) && SearchFrom(s, 0).value == GroupAt(s, j);
    assert j == |p|;
  }

  /** A chunk of `xs` from index `i`: `xs[i:i + n]`. */
  function Slice<T>(xs: seq<T>, i: nat, n: nat): seq<T>
    requires i <= |xs|
  {
    if i + n <= |xs| then xs[i..i + n] else xs[i..]
  }

  /** The chunking is well formed: every chunk but the last has `n` elements, and the last has 1 to `n`. */
  predicate ChunkedBy<T>(chunks: seq<seq<T>>, n: nat)
  {
    && (forall j :: 0 <= j < |chunks| ==> 0 < |chunks[j]| <= n)
    && (forall j :: 0 <= j < |chunks| - 1 ==> |chunks[j]| == n)
  }

  /**
   * `_chunks(seq, n)`: the slices `seq[i:i + n]` for `i` in
   * `range(0, len(seq), n)`. A zero step is an error (`None`); a negative
   * step gives an empty range, so no chunks.
   */
  method Chunks<T>(xs: seq<T>, n: int) returns (r: Option<seq<seq<T>>>)
    ensures r.None? <==> n == 0
    ensures n < 0 ==> r == Some([])
    ensures n > 0 ==> r.Some? && Concat(r.value) == xs && ChunkedBy(r.value, n)
    ensures n > 0 && xs == [] ==> r == Some([])
  {
    if n == 0 {
      return None;
    }
    if n < 0 {
      return Some([]);
    }
    var chunks: seq<seq<T>> := [];
    var i := 0;
    while i < |xs|
      invariant 0 <= i <= |xs|
      invariant Concat(chunks) == xs[..i]
      invariant ChunkedBy(chunks, n)
      invariant i < |xs| ==> forall j :: 0 <= j < |chunks| ==> |chunks[j]| == n
      decreases |xs| - i
    {
      var chunk := Slice(xs, i, n);
      assert xs[..i] + chunk == xs[..i + |chunk|];
      chunks := chunks + [chunk];
      assert chunks[..|chunks| - 1] + [chunk] == chunks;
      i := i + |chunk|;
    }
    assert xs[..|xs|] == xs;
    return Some(chunks);
  }

  /** One row of the result: the history key, the stripped title and artist, and the video id. */
  datatype VideoRow = VideoRow(key: string, title: string, artist: string, videoId: string)

  /** `y.get("id") or y.get("url") or ""`: an empty id falls through to the url. */
  function RawRef(y: YoutubeRef): string
  {
    if y.id.Some? && y.id.value != "" then y.id.value
    else if y.url.Some? && y.url.value != "" then y.url.value
    else ""
  }

  /** The row of one target, or none when it has no `youtube` field or no id can be extracted. */
  function VideoRowOf(t: Target): (r: Option<VideoRow>)
    ensures r.Some? <==> t.youtube.Some? && ExtractVideoId(RawRef(t.youtube.value)).Some?
    ensures r.Some? ==> IsId(r.value.videoId) && r.value.title == Strip(t.title) && r.value.artist == Strip(t.artist)
    ensures r.Some? ==> r.value.videoId == ExtractVideoId(RawRef(t.youtube.value)).value
                        && r.value.key == ResultKey(Strip(t.title), Strip(t.artist))
  {
    if t.youtube.None? then None
    else
      var vid := ExtractVideoId(RawRef(t.youtube.value));
      if vid.None? then None
      else
        var title := Strip(t.title);
        var artist := Strip(t.artist);
        Some(VideoRow(ResultKey(title, artist), title, artist, vid.value))
  }

  /** The rows for `targets`, in the targets' order. */
  function VideoRows(targets: seq<Target>): seq<VideoRow>
  {
    FilterMap(VideoRowOf, targets)
  }

  /** `collect_video_ids_from_targets`: one row per target that has an extractable video id. */
  method CollectVideoIds(targets: seq<Target>) returns (rows: seq<VideoRow>)
    ensures rows == VideoRows(targets)
  {
    rows := [];
    for i := 0 to |targets|
      invariant rows == VideoRows(targets[..i])
    {
      FilterMapStep(VideoRowOf, targets, i);
      var t := targets[i];
      if t.youtube.None? {
        continue;
      }
      var raw := RawRef(t.youtube.value);
      var vid := ExtractVideoId(raw);
      if vid.None? {
        continue;
      }
      var title := Strip(t.title);
      var artist := Strip(t.artist);
      var key := ResultKey(title, artist);
      rows := rows + [VideoRow(key, title, artist, vid.value)];
    }
    assert targets[..|targets|] == targets;
  }

  /**
   * Every row comes from a target: its id is a valid video id extracted
   * from that target's `id` (or, when that is empty, its `url`), and its
   * key is the history key of the stripped title and artist.
   */
  lemma VideoRowsFromTargets(targets: seq<Target>, k: nat)
    requires k < |VideoRows(targets)|
    ensures var r := VideoRows(targets)[k];
      exists j :: 0 <= j < |targets| && targets[j].youtube.Some?
        && ExtractVideoId(RawRef(targets[j].youtube.value)) == Some(r.videoId)
        && IsId(r.videoId)
        && r.key == ResultKey(Strip(targets[j].title), Strip(targets[j].artist))
  {
    FilterMapFrom(VideoRowOf, targets, k);
  }

  /** Conversely, every target with an extractable video id has its row among the collected ones. */
  lemma VideoRowsCover(targets: seq<Target>, j: nat)
    requires j < |targets| && targets[j].youtube.Some? && ExtractVideoId(RawRef(targets[j].youtube.value)).Some?
    ensures exists r :: (r in VideoRows(targets)
                         && r.videoId == ExtractVideoId(RawRef(targets[j].youtube.value)).value
                         && r.key == ResultKey(Strip(targets[j].title), Strip(targets[j].artist)))
  {
    FilterMapTo(VideoRowOf, targets, j);
    var r := VideoRowOf(targets[j]).value;
    assert r in VideoRows(targets);
  }

  /** The rows of a list of targets follow the targets' order: those of a prefix come first. */
  lemma VideoRowsInOrder(front: seq<Target>, back: seq<Target>)
    ensures VideoRows(front + back) == VideoRows(front) + VideoRows(back)
  {
    FilterMapAppend(VideoRowOf, front, back);
  }

  /** A non-empty `id` is the only reference tried: the `url` is ignored even when the `id` yields nothing. */
  lemma IdShadowsUrl(id: string, url: string)
    requires id != []
    ensures RawRef(YoutubeRef(Some(id), Some(url))) == id
  {
  }
}
