/**
 * The chart matchers of src/crawler_melon.py and src/crawler_genie.py:
 * `find_rank_by_title_artist`, `find_rank_by_title_artist_with_alias` and
 * (melon only) `find_rank_by_title`. The genie copies are the same code as
 * the melon ones, so one definition models both.
 *
 * Every matcher scans the chart rows in list order and returns the rank of
 * the first row that is a title hit and, when artist filtering is on, an
 * artist hit. A hit is two-way containment of normalised strings.
 */
module Matcher {
  import opened Wrappers
  import opened Text
  import opened Folding
  import opened Common

  /** One parsed chart row: `{"rank": int, "title": str, "artists": [str]}`. */
  datatype ChartRow = ChartRow(rank: int, title: string, artists: seq<string>)

  /**
   * What a scan looks for: the normalised title candidates, the normalised
   * artist candidates (`None` when artist filtering is off), and the class
   * the normaliser folds.
   */
  datatype Query = Query(titles: seq<string>, artists: Option<seq<string>>, cls: CharClass)

  /** Some title candidate and the row's normalised title contain one another. */
  predicate TitleHit(row: ChartRow, q: Query)
  {
    exists i :: 0 <= i < |q.titles| && Mutual(q.titles[i], NormWith(row.title, q.cls))
  }

  /**
   * Artist filtering is off, or some artist candidate and some normalised
   * row artist contain one another.
   */
  predicate ArtistHit(row: ChartRow, q: Query)
  {
    || q.artists.None?
    || exists i, j :: 0 <= i < |q.artists.value| && 0 <= j < |row.artists| &&
         Mutual(q.artists.value[i], NormWith(row.artists[j], q.cls))
  }

  predicate RowHit(row: ChartRow, q: Query)
  {
    TitleHit(row, q) && ArtistHit(row, q)
  }

  /** Row `i` is a hit and no earlier row is. */
  predicate FirstHitAt(rows: seq<ChartRow>, q: Query, i: int)
  {
    && 0 <= i < |rows|
    && RowHit(rows[i], q)
    && forall j :: 0 <= j < i ==> !RowHit(rows[j], q)
  }

  /**
   * The scan loop shared by all matchers: the rank of the first hit, or
   * `None` when no row is a hit.
   */
  function Scan(rows: seq<ChartRow>, q: Query): Option<int>
    decreases |rows|
  {
    if rows == [] then None
    else if RowHit(rows[0], q) then Some(rows[0].rank)
    else Scan(rows[1..], q)
  }

  /**
   * The scan finds nothing exactly when no row is a hit, and otherwise
   * reports the rank of the first hit.
   */
  lemma {:induction false} ScanFirstHit(rows: seq<ChartRow>, q: Query)
    ensures Scan(rows, q).None? <==> forall i :: 0 <= i < |rows| ==> !RowHit(rows[i], q)
    ensures Scan(rows, q).Some? ==> exists i :: FirstHitAt(rows, q, i) && rows[i].rank == Scan(rows, q).value
    decreases |rows|
  {
    if rows == [] {
    } else if RowHit(rows[0], q) {
      assert FirstHitAt(rows, q, 0);
    } else {
      var tail := rows[1..];
      ScanFirstHit(tail, q);
      if Scan(tail, q).Some? {
        var i :| FirstHitAt(tail, q, i) && tail[i].rank == Scan(tail, q).value;
        forall j | 0 <= j <= i ensures !RowHit(rows[j], q) {
          if j > 0 {
            assert rows[j] == tail[j - 1];
          }
        }
        assert rows[i + 1] == tail[i];
        assert FirstHitAt(rows, q, i + 1);
      } else {
        forall j | 0 <= j < |rows| ensures !RowHit(rows[j], q) {
          if j > 0 {
            assert rows[j] == tail[j - 1];
          }
        }
      }
    }
  }

  /** There is at most one first hit, so the reported rank is determined. */
  lemma FirstHitUnique(rows: seq<ChartRow>, q: Query, i: int, j: int)
    requires FirstHitAt(rows, q, i) && FirstHitAt(rows, q, j)
    ensures i == j
  {
    if i < j {
      assert false;
    } else if j < i {
      assert false;
    }
  }

  /** The scan reports the rank of the first hit, whichever way it is found. */
  lemma ScanIsFirstHit(rows: seq<ChartRow>, q: Query, i: int)
    requires FirstHitAt(rows, q, i)
    ensures Scan(rows, q) == Some(rows[i].rank)
  {
    var r := Scan(rows, q);
    ScanFirstHit(rows, q);
    assert r.Some?;
    var k :| FirstHitAt(rows, q, k) && rows[k].rank == r.value;
    FirstHitUnique(rows, q, i, k);
  }

  /** `find_rank_by_title_artist`: the artist filter is on only for an artist whose `norm` is not empty. */
  function ArtistFilter(artist: Option<string>): (r: Option<seq<string>>)
    ensures r.Some? <==> artist.Some? && artist.value != "" && Norm(artist.value) != ""
    ensures r.Some? ==> r.value == [Norm(artist.value)]
  {
    if artist.Some? && artist.value != "" then
      var qa := Norm(artist.value);
      if qa != "" then Some([qa]) else None
    else None
  }

  /** `find_rank_by_title_artist` (melon and genie). */
  function FindRankByTitleArtist(rows: seq<ChartRow>, title: string, artist: Option<string>): (r: Option<int>)
    ensures r.Some? ==> exists i :: 0 <= i < |rows| && rows[i].rank == r.value
  {
    var q := Query([Norm(title)], ArtistFilter(artist), Separators);
    ScanFirstHit(rows, q);
    Scan(rows, q)
  }

  /** The non-empty strings of `xs`, in order: `[t for t in xs if t]`. */
  function NonEmpty(xs: seq<string>): (r: seq<string>)
    ensures |r| <= |xs|
    ensures forall s :: s in r <==> s in xs && s != ""
    decreases |xs|
  {
    if xs == [] then []
    else if xs[0] != "" then [xs[0]] + NonEmpty(xs[1..])
    else NonEmpty(xs[1..])
  }

  /** Nothing is kept exactly when every string is empty. */
  lemma NonEmptyNone(x: seq<string>, xs: seq<string>)
    ensures NonEmpty(x + xs) == [] <==> (forall s :: s in x ==> s == "") && forall s :: s in xs ==> s == ""
  {
    var r := NonEmpty(x + xs);
    if r == [] {
      forall s | s in x ensures s == "" {
        assert s in x + xs;
      }
      forall s | s in xs ensures s == "" {
        assert s in x + xs;
      }
    } else {
      assert r[0] in x + xs && r[0] != "";
    }
  }

  /** `[_norm(t) for t in xs]`. */
  function NormAll(xs: seq<string>): seq<string>
  {
    seq(|xs|, i requires 0 <= i < |xs| => Norm(xs[i]))
  }

  /** The candidates are exactly the normal forms of the non-empty strings. */
  lemma NormAllNonEmpty(xs: seq<string>)
    ensures forall t :: t in NormAll(NonEmpty(xs)) <==> exists s :: s in xs && s != "" && t == Norm(s)
  {
    var ys := NonEmpty(xs);
    forall t ensures t in NormAll(ys) <==> exists s :: s in xs && s != "" && t == Norm(s) {
      if t in NormAll(ys) {
        var i :| 0 <= i < |ys| && NormAll(ys)[i] == t;
        assert ys[i] in ys;
      }
      if exists s :: s in xs && s != "" && t == Norm(s) {
        var s :| s in xs && s != "" && t == Norm(s);
        assert s in ys;
        var i :| 0 <= i < |ys| && ys[i] == s;
        assert NormAll(ys)[i] == t;
      }
    }
  }

  /**
   * The query of `find_rank_by_title_artist_with_alias`: the title and its
   * aliases, the artist (when given and non-empty) and its aliases, empty
   * strings dropped; an empty artist list switches the filter off.
   */
  function AliasQuery(title: string, artist: Option<string>, titleAliases: seq<string>,
                      artistAliases: seq<string>): (q: Query)
    ensures q.cls == Separators
    ensures |q.titles| <= 1 + |titleAliases|
    ensures q.titles == [] <==> title == "" && forall a :: a in titleAliases ==> a == ""
    ensures q.artists.None? <==> (artist.None? || artist.value == "") && forall a :: a in artistAliases ==> a == ""
    ensures q.artists.Some? ==> q.artists.value != []
    ensures forall t :: t in q.titles <==>
      exists s :: (s == title || s in titleAliases) && s != "" && t == Norm(s)
    ensures q.artists.Some? ==> forall t :: t in q.artists.value <==>
      exists s :: (artist == Some(s) || s in artistAliases) && s != "" && t == Norm(s)
  {
    var given := if artist.Some? && artist.value != "" then [artist.value] else [];
    NonEmptyNone([title], titleAliases);
    NonEmptyNone(given, artistAliases);
    NormAllNonEmpty([title] + titleAliases);
    NormAllNonEmpty(given + artistAliases);
    var titles := NormAll(NonEmpty([title] + titleAliases));
    var artists := NormAll(NonEmpty(given + artistAliases));
    Query(titles, if artists == [] then None else Some(artists), Separators)
  }

  /**
   * `find_rank_by_title_artist_with_alias` (melon and genie). A missing alias
   * list (`None`) behaves as the empty list.
   */
  function FindRankWithAlias(rows: seq<ChartRow>, title: string, artist: Option<string>,
                             titleAliases: seq<string>, artistAliases: seq<string>): (r: Option<int>)
    ensures r.Some? ==> exists i :: 0 <= i < |rows| && rows[i].rank == r.value
  {
    var q := AliasQuery(title, artist, titleAliases, artistAliases);
    ScanFirstHit(rows, q);
    Scan(rows, q)
  }

  /** `find_rank_by_title` (melon): title only, with the normaliser that keeps `/` and `\`. */
  function FindRankByTitle(rows: seq<ChartRow>, queryTitle: string): (r: Option<int>)
    ensures r.Some? ==> exists i :: 0 <= i < |rows| && rows[i].rank == r.value
  {
    var q := Query([NormWith(queryTitle, SeparatorsNoSlash)], None, SeparatorsNoSlash);
    ScanFirstHit(rows, q);
    Scan(rows, q)
  }

  // ---------------------------------------------------------------------
  // Properties of the matchers
  // ---------------------------------------------------------------------

  /** A non-`None` result is the rank of a hit row, and no earlier row is a hit. */
  lemma FindRankByTitleArtistFirst(rows: seq<ChartRow>, title: string, artist: Option<string>)
    ensures var q := Query([Norm(title)], ArtistFilter(artist), Separators);
      && (FindRankByTitleArtist(rows, title, artist).None? <==> forall i :: 0 <= i < |rows| ==> !RowHit(rows[i], q))
      && (FindRankByTitleArtist(rows, title, artist).Some? ==>
            exists i :: FirstHitAt(rows, q, i) && rows[i].rank == FindRankByTitleArtist(rows, title, artist).value)
  {
    ScanFirstHit(rows, Query([Norm(title)], ArtistFilter(artist), Separators));
  }

  /** An empty chart gives `None` for every matcher. */
  lemma EmptyChart(title: string, artist: Option<string>, titleAliases: seq<string>, artistAliases: seq<string>)
    ensures FindRankByTitleArtist([], title, artist) == None
    ensures FindRankWithAlias([], title, artist, titleAliases, artistAliases) == None
    ensures FindRankByTitle([], title) == None
  {
  }

  /**
   * With an artist that is `None`, empty, or normalises to the empty string,
   * `find_rank_by_title_artist` matches on the title alone: it reports the
   * first row whose title is a hit, whatever the row's artists are.
   */
  lemma ArtistFilterOff(rows: seq<ChartRow>, title: string, artist: Option<string>)
    requires artist.None? || artist.value == "" || Norm(artist.value) == ""
    ensures FindRankByTitleArtist(rows, title, artist) == FindRankByTitleArtist(rows, title, None)
    ensures forall i :: 0 <= i < |rows| ==>
      (RowHit(rows[i], Query([Norm(title)], ArtistFilter(artist), Separators)) <==>
       Mutual(Norm(title), Norm(rows[i].title)))
  {
    assert ArtistFilter(artist) == None;
    forall i | 0 <= i < |rows|
      ensures RowHit(rows[i], Query([Norm(title)], None, Separators)) <==> Mutual(Norm(title), Norm(rows[i].title))
    {
      TitleOnlyHit(rows[i], title);
    }
  }

  lemma TitleOnlyHit(row: ChartRow, title: string)
    ensures RowHit(row, Query([Norm(title)], None, Separators)) <==> Mutual(Norm(title), Norm(row.title))
  {
    var q := Query([Norm(title)], None, Separators);
    assert q.titles[0] == Norm(title);
  }

  /**
   * With the filter on, the artist test of `find_rank_by_title_artist` is
   * `any_match(artist, row.artists)`.
   */
  lemma ArtistHitIsAnyMatch(row: ChartRow, title: string, a: string)
    requires a != "" && Norm(a) != ""
    ensures ArtistHit(row, Query([Norm(title)], ArtistFilter(Some(a)), Separators)) == AnyMatch(a, row.artists)
  {
    AnyMatchSome(a, row.artists);
    var q := Query([Norm(title)], ArtistFilter(Some(a)), Separators);
    if AnyMatch(a, row.artists) {
      var j :| 0 <= j < |row.artists| && Mutual(Norm(a), Norm(row.artists[j]));
      assert q.artists.value[0] == Norm(a);
    }
  }

  /**
   * An empty title without title aliases gives no title candidate at all,
   * so `find_rank_by_title_artist_with_alias` finds nothing.
   */
  lemma AliasEmptyTitle(rows: seq<ChartRow>, artist: Option<string>, artistAliases: seq<string>)
    ensures FindRankWithAlias(rows, "", artist, [], artistAliases) == None
  {
    assert NonEmpty([""] + []) == [] by {
      assert [""] + [] == [""];
      assert [""][1..] == [];
    }
    var q := AliasQuery("", artist, [], artistAliases);
    assert q.titles == [];
    ScanFirstHit(rows, q);
  }

  /** A title candidate that normalises to the empty string is a title hit for every row. */
  lemma EmptyCandidateHitsAll(row: ChartRow, q: Query, i: int)
    requires 0 <= i < |q.titles| && q.titles[i] == ""
    ensures TitleHit(row, q)
  {
    assert Contains(NormWith(row.title, q.cls), q.titles[i]);
  }

  /** With artist candidates, a row that lists no artists is never a hit. */
  lemma NoArtistsNoHit(row: ChartRow, q: Query)
    requires q.artists.Some? && row.artists == []
    ensures !RowHit(row, q)
  {
  }

  /** Without artist candidates the alias matcher matches on titles only. */
  lemma AliasNoArtistCandidates(rows: seq<ChartRow>, title: string, titleAliases: seq<string>)
    ensures AliasQuery(title, None, titleAliases, []).artists.None?
    ensures AliasQuery(title, Some(""), titleAliases, []).artists.None?
  {
    var none: seq<string> := [];
    assert none + [] == [];
  }

  /**
   * Both matchers agree when the title is non-empty, no aliases are given,
   * and the artist either switches the filter off or normalises to a
   * non-empty string.
   */
  lemma AliasAgreesWithPlain(rows: seq<ChartRow>, title: string, artist: Option<string>)
    requires title != ""
    requires artist.None? || artist.value == "" || Norm(artist.value) != ""
    ensures FindRankWithAlias(rows, title, artist, [], []) == FindRankByTitleArtist(rows, title, artist)
  {
    var qa := AliasQuery(title, artist, [], []);
    var qp := Query([Norm(title)], ArtistFilter(artist), Separators);
    assert [title] + [] == [title];
    assert NonEmpty([title]) == [title] by {
      assert [title][1..] == [];
    }
    assert NormAll([title]) == [Norm(title)];
    if artist.Some? && artist.value != "" {
      assert [artist.value] + [] == [artist.value];
      assert NonEmpty([artist.value]) == [artist.value] by {
        assert [artist.value][1..] == [];
      }
      assert NormAll([artist.value]) == [Norm(artist.value)];
    } else {
      var none: seq<string> := [];
      assert none + [] == [];
    }
    assert qa == qp;
  }

  /**
   * They differ on an empty title: the plain matcher keeps `norm("")` as a
   * candidate, which every row title contains, while the alias matcher
   * drops it and finds nothing.
   */
  lemma EmptyTitleDiverges(rows: seq<ChartRow>)
    requires rows != []
    ensures FindRankByTitleArtist(rows, "", None) == Some(rows[0].rank)
    ensures FindRankWithAlias(rows, "", None, [], []) == None
  {
    var q := Query([Norm("")], ArtistFilter(None), Separators);
    EmptyCandidateHitsAll(rows[0], q, 0);
    assert FirstHitAt(rows, q, 0);
    ScanIsFirstHit(rows, q, 0);
    AliasEmptyTitle(rows, None, []);
  }

  /**
   * On titles without `/` or `\`, `find_rank_by_title` agrees with the
   * title-only search of the full normaliser.
   */
  lemma ByTitleWithoutSlashes(rows: seq<ChartRow>, queryTitle: string)
    requires NoSlash(queryTitle)
    requires forall i :: 0 <= i < |rows| ==> NoSlash(rows[i].title)
    ensures FindRankByTitle(rows, queryTitle) == FindRankByTitleArtist(rows, queryTitle, None)
  {
    var qs := Query([NormWith(queryTitle, SeparatorsNoSlash)], None, SeparatorsNoSlash);
    var qf := Query([Norm(queryTitle)], None, Separators);
    NormWithoutSlashes(queryTitle);
    forall i | 0 <= i < |rows| ensures RowHit(rows[i], qs) == RowHit(rows[i], qf) {
      NormWithoutSlashes(rows[i].title);
    }
    ScanSameHits(rows, qs, qf);
  }

  /** Two queries with the same hits on every row give the same scan. */
  lemma {:induction false} ScanSameHits(rows: seq<ChartRow>, q1: Query, q2: Query)
    requires forall i :: 0 <= i < |rows| ==> RowHit(rows[i], q1) == RowHit(rows[i], q2)
    ensures Scan(rows, q1) == Scan(rows, q2)
    decreases |rows|
  {
    if rows != [] {
      assert forall i :: 1 <= i < |rows| ==> rows[i] == rows[1..][i - 1];
      ScanSameHits(rows[1..], q1, q2);
    }
  }

  /** Two letters around one space are already normal under either separator class. */
  lemma SpacedPairNormal(a: char, b: char, cls: CharClass)
    requires 'a' <= a <= 'z' && 'a' <= b <= 'z'
    requires cls != Whitespace
    ensures NormWith([a, ' ', b], cls) == [a, ' ', b]
  {
    var q := [a, ' ', b];
    assert q[1..] == [' ', b] && q[1..][1..] == [b];
    assert !InClass(cls, a) && !InClass(cls, b);
    assert Folded([b], cls);
    assert Folded([' ', b], cls);
    assert Folded(q, cls);
    StripNoOp(q);
    NormOfFolded(q, cls);
  }

  /**
   * A title that is non-empty but blank after normalising (such as `" "`)
   * survives the `if t` filter as the candidate `""`, which every row's
   * title contains: with no artist, both matchers return the first row.
   */
  lemma BlankTitleHitsFirst(rows: seq<ChartRow>, title: string)
    requires rows != []
    requires title != "" && Norm(title) == ""
    ensures FindRankWithAlias(rows, title, None, [], []) == Some(rows[0].rank)
    ensures FindRankByTitleArtist(rows, title, None) == Some(rows[0].rank)
  {
    var q := AliasQuery(title, None, [], []);
    assert [title] + [] == [title];
    assert NonEmpty([title]) == [title];
    assert q.titles == [""];
    EmptyCandidateHitsAll(rows[0], q, 0);
    assert FirstHitAt(rows, q, 0);
    ScanIsFirstHit(rows, q, 0);
    var plain := Query([Norm(title)], ArtistFilter(None), Separators);
    EmptyCandidateHitsAll(rows[0], plain, 0);
    assert FirstHitAt(rows, plain, 0);
    ScanIsFirstHit(rows, plain, 0);
  }

  /** `" "` is such a title. */
  lemma BlankTitleExample()
    ensures " " != "" && Norm(" ") == ""
  {
    assert Lower(" ") == " ";
    assert " "[1..] == "";
    assert Strip(" ") == "";
  }

  /**
   * The drifted copy in `find_rank_by_title` keeps slashes, so a chart
   * title `a/b` is found by the query `a b` through
   * `find_rank_by_title_artist` but not through `find_rank_by_title`.
   */
  lemma ByTitleKeepsSlash(a: char, b: char, rank: int, artists: seq<string>)
    requires 'a' <= a <= 'z' && 'a' <= b <= 'z'
    ensures var rows := [ChartRow(rank, [a, '/', b], artists)];
      && FindRankByTitleArtist(rows, [a, ' ', b], None) == Some(rank)
      && FindRankByTitle(rows, [a, ' ', b]) == None
  {
    var s, q := [a, '/', b], [a, ' ', b];
    SlashExample(a, b);
    SpacedPairNormal(a, b, Separators);
    SpacedPairNormal(a, b, SeparatorsNoSlash);
    ContainsEmptyAndSelf(q);
    var query := Query([Norm(q)], None, Separators);
    assert Mutual(query.titles[0], NormWith(s, Separators));
    assert RowHit(ChartRow(rank, s, artists), query);
    ContainsAt(s, q);
    ContainsAt(q, s);
    assert !Mutual(q, s);
    var byTitle := Query([NormWith(q, SeparatorsNoSlash)], None, SeparatorsNoSlash);
    assert !RowHit(ChartRow(rank, s, artists), byTitle);
    assert [ChartRow(rank, s, artists)][1..] == [];
    assert Scan([ChartRow(rank, s, artists)], byTitle) == None;
    assert FindRankByTitle([ChartRow(rank, s, artists)], q) == Scan([ChartRow(rank, s, artists)], byTitle);
  }
}
