/**
 * The rank history shared by src/main.py and src/notifier.py: the key a
 * song is stored under (`_result_key`), the `-1` sentinel written for a
 * song that is not on the chart, and the previous-run map read back from
 * the history file. Reading and writing the JSON file are outside the
 * model; the file is one of three states.
 */
module History {
  import opened Wrappers
  import opened Text

  /** `f"{title}@@{artist}".lower().strip()`. */
  function ResultKey(title: string, artist: string): (key: string)
    ensures |key| <= |title| + |artist| + 2
  {
    Strip(Lower(title + "@@" + artist))
  }

  /** A key is lower-case and has no whitespace at either end. */
  lemma ResultKeyShape(title: string, artist: string)
    ensures var key := ResultKey(title, artist);
      && (key == [] || (!IsSpace(key[0]) && !IsSpace(key[|key| - 1])))
      && IsLower(key)
  {
    var raw := Lower(title + "@@" + artist);
    StripEnds(raw);
    StripInfix(raw);
    LowerInfix(raw, StripOffset(raw), StripOffset(raw) + |Strip(raw)|);
  }


  /** The key ignores the case of ASCII letters. */
  lemma ResultKeyIgnoresCase(title: string, artist: string)
    ensures ResultKey(Lower(title), Lower(artist)) == ResultKey(title, artist)
  {
    LowerConcat(title, "@@");
    LowerConcat(title + "@@", artist);
    LowerConcat(Lower(title), "@@");
    LowerConcat(Lower(title) + "@@", artist);
    assert Lower("@@") == "@@";
    var raw := Lower(title + "@@" + artist);
    assert IsLower(raw);
    LowerOfLower(raw);
  }

  /** The key keeps the `@@` between title and artist: stripping never reaches it. */
  lemma ResultKeyHasSeparator(title: string, artist: string)
    ensures Contains(ResultKey(title, artist), "@@")
  {
    var raw := Lower(title + "@@" + artist);
    var off := StripOffset(raw);
    var key := Strip(raw);
    StripInfix(raw);
    assert raw[|title|] == '@' && raw[|title| + 1] == '@';
    assert off <= |title|;
    assert |title| + 2 <= off + |key|;
    assert key[|title| - off..|title| - off + 2] == "@@";
    assert OccursAt(key, "@@", |title| - off);
    ContainsAt(key, "@@");
  }

  /** The value stored for one song: its rank, or `-1` when it is not on the chart. */
  function EncodeRank(rank: Option<int>): (v: int)
    ensures rank.None? ==> v == -1
    ensures rank.Some? ==> v == rank.value
  {
    if rank.Some? then rank.value else -1
  }

  /** A looked-up previous value: missing and `-1` both mean "no previous rank". */
  function DecodePrev(stored: Option<int>): (prev: Option<int>)
    ensures prev.None? <==> stored.None? || stored.value == -1
    ensures prev.Some? ==> prev == stored
  {
    if stored.Some? && stored.value != -1 then stored else None
  }

  /** A rank survives the history file; a missing rank comes back missing. */
  lemma SentinelRoundTrip(rank: Option<int>)
    requires rank.None? || rank.value != -1
    ensures DecodePrev(Some(EncodeRank(rank))) == rank
  {
  }

  /** `prev_map.get(key)`, with the sentinel decoded. */
  function PrevRank(prevMap: map<string, int>, key: string): (prev: Option<int>)
    ensures prev.Some? <==> key in prevMap && prevMap[key] != -1
    ensures prev.Some? ==> prev.value == prevMap[key]
  {
    DecodePrev(if key in prevMap then Some(prevMap[key]) else None)
  }

  /** The movement of a song between two runs, as the emoji of a row shows it. */
  datatype Movement = New | Up | Down | Same | Reentry | Out

  function Emoji(m: Movement): (e: string)
    ensures |e| == 1 && !IsSpace(e[0])
  {
    match m
    case New => "🆕"
    case Up => "🔺"
    case Down => "🔻"
    case Same => "➖"
    case Reentry => "🔁"
    case Out => "🚫"
  }

  /** Each movement has its own emoji. */
  lemma EmojiInjective(m: Movement, n: Movement)
    requires Emoji(m) == Emoji(n)
    ensures m == n
  {
    assert Emoji(m)[0] == Emoji(n)[0];
  }

  /** The history file of one platform, as the loader finds it. */
  datatype HistoryFile = Missing | Corrupt | Stored(contents: map<string, int>)

  /** `_load_prev`: a missing or unreadable file gives the empty map. */
  function LoadPrev(file: HistoryFile): (m: map<string, int>)
    ensures file.Stored? ==> m == file.contents
    ensures !file.Stored? ==> m == map[]
  {
    if file.Stored? then file.contents else map[]
  }

  /** `HISTORY_FILES[platform].exists()`. */
  predicate HadFile(file: HistoryFile)
  {
    !file.Missing?
  }

  /** A corrupt file reads as an empty history, yet it counts as an existing file. */
  lemma CorruptFile()
    ensures LoadPrev(Corrupt) == map[] && HadFile(Corrupt)
    ensures LoadPrev(Missing) == map[] && !HadFile(Missing)
  {
  }
}
