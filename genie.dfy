/**
 * The genie chart helpers of src/crawler_genie.py: the chart URL of one
 * page (`build_genie_url`) and the collection step of
 * `get_genie_top200_items`, which concatenates the parsed pages, keeps one
 * row per rank (the last one seen) and lists the rows by increasing rank.
 * Fetching and parsing the pages are outside the model: the parsed pages
 * are the method's input.
 */
module Genie {
  import opened Decimal
  import opened UrlEncode
  import opened Text
  import opened Matcher
  import opened Seqs

  const BaseUrl: string := "https://www.genie.co.kr/chart/top200"

  /** The query of one chart page, in the order the dict literal lists its keys. */
  function GenieQuery(ymd: string, hh: int, page: int): seq<(string, string)>
  {
    [("ditc", "D"), ("ymd", ymd), ("hh", IntToString(hh)), ("rtm", "Y"), ("pg", IntToString(page))]
  }

  /** `build_genie_url(ymd, hh, page)`. */
  function BuildGenieUrl(ymd: string, hh: int, page: int): (url: string)
    ensures BaseUrl + "?" <= url
  {
    BaseUrl + "?" + Urlencode(GenieQuery(ymd, hh, page))
  }

  lemma IntToStringSafe(i: int)
    ensures QuotePlus(IntToString(i)) == IntToString(i)
  {
    var s := IntToString(i);
    IntToStringShape(i);
    forall k | 0 <= k < |s| ensures IsAlwaysSafe(s[k]) {
      if i < 0 && k > 0 {
        assert s[k] == s[1..][k - 1];
      }
    }
    QuotePlusSafe(s);
  }

  lemma FieldSafeKey(key: string, value: string)
    requires forall i :: 0 <= i < |key| ==> IsAlwaysSafe(key[i])
    ensures Field(key, value) == key + "=" + QuotePlus(value)
  {
    QuotePlusSafe(key);
  }

  lemma FieldInt(key: string, n: int)
    requires forall i :: 0 <= i < |key| ==> IsAlwaysSafe(key[i])
    ensures Field(key, IntToString(n)) == key + "=" + IntToString(n)
  {
    FieldSafeKey(key, IntToString(n));
    IntToStringSafe(n);
  }

  lemma FieldDitc(ymd: string, hh: int, page: int)
    ensures Fields(GenieQuery(ymd, hh, page))[0] == "ditc=D"
  {
    FieldOfSafe("ditc", "D");
  }

  lemma FieldYmd(ymd: string, hh: int, page: int)
    ensures Fields(GenieQuery(ymd, hh, page))[1] == "ymd=" + QuotePlus(ymd)
  {
    assert Fields(GenieQuery(ymd, hh, page))[1] == Field("ymd", ymd);
    FieldSafeKey("ymd", ymd);
    assert "ymd" + "=" == "ymd=";
  }

  lemma FieldHh(ymd: string, hh: int, page: int)
    ensures Fields(GenieQuery(ymd, hh, page))[2] == "hh=" + IntToString(hh)
  {
    assert Fields(GenieQuery(ymd, hh, page))[2] == Field("hh", IntToString(hh));
    FieldInt("hh", hh);
    assert "hh" + "=" == "hh=";
  }

  lemma FieldRtm(ymd: string, hh: int, page: int)
    ensures Fields(GenieQuery(ymd, hh, page))[3] == "rtm=Y"
  {
    FieldOfSafe("rtm", "Y");
  }

  lemma FieldPg(ymd: string, hh: int, page: int)
    ensures Fields(GenieQuery(ymd, hh, page))[4] == "pg=" + IntToString(page)
  {
    assert Fields(GenieQuery(ymd, hh, page))[4] == Field("pg", IntToString(page));
    FieldInt("pg", page);
    assert "pg" + "=" == "pg=";
  }

  /**
   * The URL is the chart address, `?`, and then exactly five `&`-separated
   * fields with the keys `ditc`, `ymd`, `hh`, `rtm`, `pg` in that order;
   * only the date is escaped, the hour and page are written as `str` does.
   */
  lemma GenieUrlFields(ymd: string, hh: int, page: int)
    ensures |BuildGenieUrl(ymd, hh, page)| > |BaseUrl| + 1
    ensures BuildGenieUrl(ymd, hh, page)[..|BaseUrl| + 1] == BaseUrl + "?"
    ensures var parts := Split(BuildGenieUrl(ymd, hh, page)[|BaseUrl| + 1..], '&');
      && |parts| == 5
      && parts[0] == "ditc=D"
      && parts[1] == "ymd=" + QuotePlus(ymd)
      && parts[2] == "hh=" + IntToString(hh)
      && parts[3] == "rtm=Y"
      && parts[4] == "pg=" + IntToString(page)
  {
    var pairs := GenieQuery(ymd, hh, page);
    var q := Urlencode(pairs);
    var url := BuildGenieUrl(ymd, hh, page);
    assert url == (BaseUrl + "?") + q;
    assert url[|BaseUrl| + 1..] == q;
    UrlencodeSplit(pairs);
    FieldDitc(ymd, hh, page);
    FieldYmd(ymd, hh, page);
    FieldHh(ymd, hh, page);
    FieldRtm(ymd, hh, page);
    FieldPg(ymd, hh, page);
    assert |q| > 0 by {
      assert q == Fields(pairs)[0] + ['&'] + Join(Fields(pairs)[1..], '&');
    }
  }

  /** The index of the last row with rank `k`, or -1 when there is none. */
  function LastIndex(rows: seq<ChartRow>, k: int): (r: int)
    ensures -1 <= r < |rows|
    ensures r == -1 <==> forall j :: 0 <= j < |rows| ==> rows[j].rank != k
    ensures r >= 0 ==> rows[r].rank == k && forall m :: r < m < |rows| ==> rows[m].rank != k
  {
    if rows == [] then -1
    else if rows[|rows| - 1].rank == k then |rows| - 1
    else LastIndex(rows[..|rows| - 1], k)
  }

  /** The ranks that occur in `rows`. */
  function Ranks(rows: seq<ChartRow>): set<int>
  {
    set i | 0 <= i < |rows| :: rows[i].rank
  }

  lemma RanksAppend(rows: seq<ChartRow>, row: ChartRow)
    ensures Ranks(rows + [row]) == Ranks(rows) + {row.rank}
  {
    var both := rows + [row];
    forall k | k in Ranks(both) ensures k in Ranks(rows) + {row.rank} {
      var i :| 0 <= i < |both| && both[i].rank == k;
      if i < |rows| {
        assert rows[i] == both[i];
      }
    }
    forall k | k in Ranks(rows) ensures k in Ranks(both) {
      var i :| 0 <= i < |rows| && rows[i].rank == k;
      assert both[i] == rows[i];
    }
    assert both[|rows|] == row;
  }

  /** The dict entry of one row: its rank and the row. */
  function RankEntry(row: ChartRow): (int, ChartRow)
  {
    (row.rank, row)
  }

  /** `{it["rank"]: it for it in rows}`: later rows overwrite earlier ones with the same rank. */
  function Dedup(rows: seq<ChartRow>): map<int, ChartRow>
  {
    Assign(rows, _ => true, RankEntry)
  }

  /**
   * The de-duplicating dict has one key per rank that occurs, and holds
   * for each the last row with that rank.
   */
  lemma DedupIsLast(rows: seq<ChartRow>)
    ensures Dedup(rows).Keys == Ranks(rows)
    ensures forall k :: k in Dedup(rows) ==> LastIndex(rows, k) >= 0 && Dedup(rows)[k] == rows[LastIndex(rows, k)]
  {
    AssignKeys(rows, _ => true, RankEntry);
    assert (set j | 0 <= j < |rows| :: RankEntry(rows[j]).0) == Ranks(rows);
    forall k | k in Dedup(rows)
      ensures LastIndex(rows, k) >= 0 && Dedup(rows)[k] == rows[LastIndex(rows, k)]
    {
      var j := LastIndex(rows, k);
      AssignLast(rows, _ => true, RankEntry, j);
    }
  }

  /** A non-empty set of ranks has a least element. */
  lemma MinExists(s: set<int>)
    requires s != {}
    ensures exists m :: m in s && forall x :: x in s ==> m <= x
  {
    if forall x :: x !in s {
      assert false;
    }
    var x :| x in s;
    var rest := s - {x};
    if rest != {} {
      MinExists(rest);
      var y :| y in rest && forall z :: z in rest ==> y <= z;
      var m := if x < y then x else y;
      forall z | z in s ensures m <= z {
        if z != x {
          assert z in rest;
        }
      }
      assert m in s;
    } else {
      assert s == {x};
    }
  }

  /**
   * The state of the emission loop: `items` lists, by strictly increasing
   * rank, the dict rows whose keys are no longer `remaining`, and every
   * emitted rank is below every remaining key.
   */
  predicate Emitted(items: seq<ChartRow>, remaining: set<int>, dedup: map<int, ChartRow>)
  {
    && remaining <= dedup.Keys
    && Ranks(items) !! remaining
    && Ranks(items) + remaining == dedup.Keys
    && (forall i :: 0 <= i < |items| ==> items[i].rank in dedup && items[i] == dedup[items[i].rank])
    && (forall i, j :: 0 <= i < j < |items| ==> items[i].rank < items[j].rank)
    && (forall i, x :: 0 <= i < |items| && x in remaining ==> items[i].rank < x)
  }

  /** Emitting the least remaining key keeps the loop state. */
  lemma EmitLeast(items: seq<ChartRow>, remaining: set<int>, dedup: map<int, ChartRow>, k: int)
    requires forall r :: r in dedup ==> dedup[r].rank == r
    requires Emitted(items, remaining, dedup)
    requires k in remaining && forall x :: x in remaining ==> k <= x
    ensures Emitted(items + [dedup[k]], remaining - {k}, dedup)
  {
    var v := dedup[k];
    var next := items + [v];
    var rest := remaining - {k};
    assert v.rank == k;
    RanksAppend(items, v);
    forall i | 0 <= i < |next| ensures next[i].rank in dedup && next[i] == dedup[next[i].rank] {
      if i < |items| {
        assert next[i] == items[i];
      }
    }
    forall i, j | 0 <= i < j < |next| ensures next[i].rank < next[j].rank {
      assert next[i] == items[i];
      if j < |items| {
        assert next[j] == items[j];
      }
    }
    forall i, x | 0 <= i < |next| && x in rest ensures next[i].rank < x {
      if i < |items| {
        assert next[i] == items[i];
      }
    }
  }

  /**
   * `[dedup[k] for k in sorted(dedup.keys())]`: the dict's rows by strictly
   * increasing key.
   */
  method ByIncreasingRank(dedup: map<int, ChartRow>) returns (items: seq<ChartRow>)
    requires forall k :: k in dedup ==> dedup[k].rank == k
    ensures forall i, j :: 0 <= i < j < |items| ==> items[i].rank < items[j].rank
    ensures Ranks(items) == dedup.Keys
    ensures forall i :: 0 <= i < |items| ==> items[i] == dedup[items[i].rank]
  {
    var remaining := dedup.Keys;
    items := [];
    while remaining != {}
      invariant Emitted(items, remaining, dedup)
      decreases |remaining|
    {
      MinExists(remaining);
      var k :| k in remaining && forall x :: x in remaining ==> k <= x;
      EmitLeast(items, remaining, dedup, k);
      items := items + [dedup[k]];
      remaining := remaining - {k};
    }
  }

  /**
   * The collection step of `get_genie_top200_items`, given the parsed
   * pages: the result lists one row per rank that occurs, by strictly
   * increasing rank, and the row kept for a rank is the last one with that
   * rank in page order.
   */
  method GenieTop200Items(pages: seq<seq<ChartRow>>) returns (items: seq<ChartRow>)
    ensures forall i, j :: 0 <= i < j < |items| ==> items[i].rank < items[j].rank
    ensures Ranks(items) == Ranks(Concat(pages))
    ensures forall i :: 0 <= i < |items| ==>
      LastIndex(Concat(pages), items[i].rank) >= 0 &&
      items[i] == Concat(pages)[LastIndex(Concat(pages), items[i].rank)]
  {
    var all: seq<ChartRow> := [];
    var p := 0;
    while p < |pages|
      invariant 0 <= p <= |pages|
      invariant all == Concat(pages[..p])
    {
      ConcatStep(pages, p);
      all := all + pages[p];
      p := p + 1;
    }
    assert pages[..|pages|] == pages;

    var dedup: map<int, ChartRow> := map[];
    var i := 0;
    while i < |all|
      invariant 0 <= i <= |all|
      invariant dedup == Dedup(all[..i])
    {
      AssignStep(all, _ => true, RankEntry, i);
      dedup := dedup[all[i].rank := all[i]];
      i := i + 1;
    }
    assert all[..|all|] == all;
    DedupIsLast(all);
    items := ByIncreasingRank(dedup);
  }
}
