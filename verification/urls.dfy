/**
 Turning the rows of the input list into cleaned URLs
 (`read_urls_from_csv`). The file is already split into rows of cells;
 only the first cell of each row is looked at.
 */
module UrlList {
  import opened Ascii

  /** The last step of the cleaning: when a comma is left, the stripped text
      before the first comma; otherwise the text as it is. */
  function CutAtComma(s: string): (url: string)
    ensures ',' !in url
    ensures ',' in s ==> HasNoSpaceAtEnds(url)
    ensures ',' !in s ==> url == s
  {
    if ',' in s then Strip(BeforeFirst(s, ',')) else s
  }

  /** The cleaning applied to a first cell: strip whitespace, drop trailing
      commas, and when a comma is still left keep only the stripped text
      before the first comma. */
  function CleanCell(cell: string): (url: string)
    ensures ',' !in url
    ensures |url| > 0 ==> !IsSpace(url[0])
    ensures ',' !in Strip(cell) ==> url == Strip(cell)
  {
    var s := TrimRightChar(Strip(cell), ',');
    assert |s| > 0 ==> s[0] == Strip(cell)[0];
    TrimRightCharAbsent(Strip(cell), ',');
    CutAtComma(s)
  }

  /** What one row adds to the list: nothing for an empty row, a blank first
      cell, or a first cell that cleans to the empty string. */
  function RowUrls(row: seq<string>): (urls: seq<string>)
    ensures |urls| <= 1
    ensures |urls| == 1 <==> |row| > 0 && Strip(row[0]) != "" && CleanCell(row[0]) != ""
    ensures |urls| == 1 ==> urls[0] == CleanCell(row[0])
  {
    if |row| > 0 && Strip(row[0]) != "" then
      var url := CleanCell(row[0]);
      if url != "" then [url] else []
    else []
  }

  /** What the rows contribute through `f`, concatenated in row order. */
  function Collect(rows: seq<seq<string>>, f: seq<string> -> seq<string>): seq<string> {
    if rows == [] then [] else f(rows[0]) + Collect(rows[1..], f)
  }

  /** `f` contributes at most one entry per row. */
  ghost predicate AtMostOne(f: seq<string> -> seq<string>) {
    forall row :: |f(row)| <= 1
  }

  /** `url` is exactly what one of the rows contributes through `f`. */
  ghost predicate Contributes(url: string, rows: seq<seq<string>>, f: seq<string> -> seq<string>) {
    exists k :: 0 <= k < |rows| && f(rows[k]) == [url]
  }

  lemma {:induction false} CollectLength(rows: seq<seq<string>>, f: seq<string> -> seq<string>)
    requires AtMostOne(f)
    ensures |Collect(rows, f)| <= |rows|
  {
    if rows != [] {
      CollectLength(rows[1..], f);
    }
  }

  lemma {:induction false} CollectAppend(a: seq<seq<string>>, b: seq<seq<string>>, f: seq<string> -> seq<string>)
    ensures Collect(a + b, f) == Collect(a, f) + Collect(b, f)
  {
    if a == [] {
      assert a + b == b;
    } else {
      assert (a + b)[1..] == a[1..] + b;
      CollectAppend(a[1..], b, f);
    }
  }

  lemma ContributesOfTail(url: string, rows: seq<seq<string>>, f: seq<string> -> seq<string>)
    requires rows != [] && Contributes(url, rows[1..], f)
    ensures Contributes(url, rows, f)
  {
    var k :| 0 <= k < |rows[1..]| && f(rows[1..][k]) == [url];
    assert rows[k + 1] == rows[1..][k];
  }

  /** The entry at position `i` is what some row contributes. */
  lemma {:induction false} CollectAt(rows: seq<seq<string>>, f: seq<string> -> seq<string>, i: nat)
    requires AtMostOne(f)
    requires i < |Collect(rows, f)|
    ensures Contributes(Collect(rows, f)[i], rows, f)
    decreases |rows|
  {
    var head := f(rows[0]);
    var tail := Collect(rows[1..], f);
    assert Collect(rows, f) == head + tail;
    if i < |head| {
      assert |head| == 1 && head == [Collect(rows, f)[i]];
    } else {
      assert Collect(rows, f)[i] == tail[i - |head|];
      CollectAt(rows[1..], f, i - |head|);
      ContributesOfTail(Collect(rows, f)[i], rows, f);
    }
  }

  /** Every URL a row contributes is non-empty, comma-free and starts with a
      non-space character. */
  lemma RowUrlsClean(row: seq<string>, url: string)
    requires RowUrls(row) == [url]
    ensures url != "" && ',' !in url && !IsSpace(url[0])
  {
    assert |RowUrls(row)| == 1;
  }

  lemma RowUrlsAtMostOne()
    ensures AtMostOne(RowUrls)
  {
  }

  lemma CollectedUrlsClean(rows: seq<seq<string>>)
    ensures |Collect(rows, RowUrls)| <= |rows|
    ensures forall i :: 0 <= i < |Collect(rows, RowUrls)| ==>
              var u := Collect(rows, RowUrls)[i]; u != "" && ',' !in u && !IsSpace(u[0])
  {
    RowUrlsAtMostOne();
    CollectLength(rows, RowUrls);
    var urls := Collect(rows, RowUrls);
    forall i | 0 <= i < |urls|
      ensures urls[i] != "" && ',' !in urls[i] && !IsSpace(urls[i][0])
    {
      CollectAt(rows, RowUrls, i);
      var k :| 0 <= k < |rows| && RowUrls(rows[k]) == [urls[i]];
      RowUrlsClean(rows[k], urls[i]);
    }
  }

  /** `read_urls_from_csv`: the rows' contributions in row order. Every
      returned URL is non-empty, comma-free and starts with a non-space
      character; there is at most one per row. */
  function ReadUrls(rows: seq<seq<string>>): (urls: seq<string>)
    ensures |urls| <= |rows|
    ensures forall i :: 0 <= i < |urls| ==> urls[i] != "" && ',' !in urls[i] && !IsSpace(urls[i][0])
  {
    CollectedUrlsClean(rows);
    Collect(rows, RowUrls)
  }

  /** Reading is a filter-map over rows, so it preserves row order: the URLs
      of a concatenation are the concatenation of the URLs. */
  lemma ReadUrlsAppend(a: seq<seq<string>>, b: seq<seq<string>>)
    ensures ReadUrls(a + b) == ReadUrls(a) + ReadUrls(b)
  {
    CollectAppend(a, b, RowUrls);
  }

  /** Reading one more row adds what that row contributes. */
  lemma ReadUrlsSnoc(rows: seq<seq<string>>, row: seq<string>)
    ensures ReadUrls(rows + [row]) == ReadUrls(rows) + RowUrls(row)
  {
    CollectAppend(rows, [row], RowUrls);
    assert [row][1..] == [];
  }

  /** `url` is what one of the rows contributes: the cleaned first cell of a
      row whose first cell is not blank. */
  ghost predicate FromFirstCell(url: string, rows: seq<seq<string>>) {
    exists k :: 0 <= k < |rows| && RowUrls(rows[k]) == [url]
  }

  /** Each URL comes from the first cell of some row. */
  lemma ReadUrlsFromFirstCells(rows: seq<seq<string>>)
    ensures forall i :: 0 <= i < |ReadUrls(rows)| ==> FromFirstCell(ReadUrls(rows)[i], rows)
  {
    RowUrlsAtMostOne();
    var urls := ReadUrls(rows);
    forall i | 0 <= i < |urls|
      ensures FromFirstCell(urls[i], rows)
    {
      CollectAt(rows, RowUrls, i);
      var k :| 0 <= k < |rows| && RowUrls(rows[k]) == [Collect(rows, RowUrls)[i]];
    }
  }

  /** Only the first cell matters, and an empty row or a blank first cell
      contributes nothing. */
  lemma OnlyFirstCellMatters(rows: seq<seq<string>>, row: seq<string>, row': seq<string>)
    requires |row| > 0 && |row'| > 0 && row[0] == row'[0]
    ensures ReadUrls(rows + [row]) == ReadUrls(rows + [row'])
  {
    ReadUrlsSnoc(rows, row);
    ReadUrlsSnoc(rows, row');
  }

  lemma BlankRowAddsNothing(rows: seq<seq<string>>, row: seq<string>)
    requires |row| == 0 || Strip(row[0]) == ""
    ensures ReadUrls(rows + [row]) == ReadUrls(rows)
  {
    ReadUrlsSnoc(rows, row);
  }

  /** A first cell that is already clean comes back unchanged. */
  lemma CleanCellKeepsCleanUrl(cell: string)
    requires ',' !in cell && HasNoSpaceAtEnds(cell)
    ensures CleanCell(cell) == cell
  {
    StripKeepsTrimmed(cell);
    assert |cell| > 0 ==> cell[|cell| - 1] != ',';
  }

  /** Nothing but commas follows position `k` of `t`. */
  predicate OnlyCommasAfter(t: string, k: nat) {
    forall j :: k < j < |t| ==> t[j] == ','
  }

  /** Dropping trailing commas never reaches past the first comma. */
  lemma {:induction false} FirstCommaSurvivesTrim(t: string)
    ensures IndexOf(t, ',') <= |TrimRightChar(t, ',')|
    ensures IndexOf(TrimRightChar(t, ','), ',') == IndexOf(t, ',') ||
            IndexOf(t, ',') == |TrimRightChar(t, ',')|
  {
    if |t| > 0 && t[|t| - 1] == ',' {
      var p := t[..|t| - 1];
      FirstCommaSurvivesTrim(p);
      var k' := IndexOf(p, ',');
      assert k' < |p| ==> p[k'] == t[k'];
      assert forall i :: 0 <= i < k' ==> p[i] == t[i];
      assert IndexOf(t, ',') == k';
    }
  }

  /** How dropping trailing commas meets the first comma: either a
      non-comma follows the first comma and the first comma survives, or the
      result is exactly the text before the first comma. */
  lemma TrailingCommasAndFirstComma(t: string)
    ensures var s := TrimRightChar(t, ',');
            var k := IndexOf(t, ',');
            && k <= |s|
            && (k < |s| ==> ',' in s && BeforeFirst(s, ',') == t[..k])
            && (k == |s| ==> s == t[..k] && ',' !in s)
            && (k < |s| <==> !OnlyCommasAfter(t, k))
  {
    var s := TrimRightChar(t, ',');
    var k := IndexOf(t, ',');
    FirstCommaSurvivesTrim(t);
    if k < |s| {
      KeptFirstComma(t, s, k);
    } else {
      DroppedFirstComma(t, s, k);
    }
  }

  /** The first comma survives: a non-comma follows it. */
  lemma KeptFirstComma(t: string, s: string, k: nat)
    requires s == TrimRightChar(t, ',') && k == IndexOf(t, ',')
    requires k < |s| && IndexOf(s, ',') == k
    ensures ',' in s && BeforeFirst(s, ',') == t[..k]
    ensures !OnlyCommasAfter(t, k)
  {
    assert s[k] == ',';
    assert s[..k] == t[..k];
    assert s[|s| - 1] != ',';
    assert t[|s| - 1] == s[|s| - 1];
    assert k < |s| - 1;
  }

  /** The first comma is dropped: only commas follow it. */
  lemma DroppedFirstComma(t: string, s: string, k: nat)
    requires s == TrimRightChar(t, ',') && k == IndexOf(t, ',')
    requires k == |s|
    ensures s == t[..k] && ',' !in s
    ensures OnlyCommasAfter(t, k)
  {
    assert forall i :: 0 <= i < |s| ==> s[i] == t[i];
  }

  /** Annotation after the first comma is discarded. The prefix before that
      comma is stripped when something other than commas follows it, and is
      kept as it is when only commas follow. */
  lemma CleanCellDropsAnnotation(cell: string)
    requires ',' in Strip(cell)
    ensures var t := Strip(cell);
            var k := IndexOf(t, ',');
            && (!OnlyCommasAfter(t, k) ==> CleanCell(cell) == Strip(t[..k]))
            && (OnlyCommasAfter(t, k) ==> CleanCell(cell) == t[..k])
  {
    TrailingCommasAndFirstComma(Strip(cell));
  }

  lemma OccursWithin(a: string, b: string, c: string, i: int, j: int)
    requires OccursAt(a, b, i) && OccursAt(b, c, j)
    ensures OccursAt(a, c, i + j)
  {
    forall k | 0 <= k < |c|
      ensures a[i + j + k] == c[k]
    {
      assert c[k] == b[j + k] == a[i + j + k];
    }
    assert a[i + j..i + j + |c|] == c;
  }

  /** The cleaned URL is a contiguous piece of the cell. */
  lemma CleanCellIsInfix(cell: string)
    ensures exists i :: OccursAt(cell, CleanCell(cell), i)
  {
    var t := Strip(cell);
    var i0 := |cell| - |TrimLeft(cell)|;
    StripIsInfix(cell);
    var s := TrimRightChar(t, ',');
    assert OccursAt(t, s, 0);
    OccursWithin(cell, t, s, i0, 0);
    if ',' in s {
      var b := BeforeFirst(s, ',');
      assert OccursAt(s, b, 0);
      OccursWithin(cell, s, b, i0, 0);
      StripIsInfix(b);
      var j := |b| - |TrimLeft(b)|;
      OccursWithin(cell, b, Strip(b), i0, j);
      assert OccursAt(cell, CleanCell(cell), i0 + j);
    } else {
      assert OccursAt(cell, CleanCell(cell), i0);
    }
  }

  /** The cleaning intended by the comments beside it: the URL is the stripped
      text before the first comma of the stripped cell. */
  function CleanCellIntended(cell: string): (url: string)
    ensures ',' !in url
    ensures HasNoSpaceAtEnds(url)
  {
    Strip(BeforeFirst(Strip(cell), ','))
  }

  /** The intended cleaning differs from the written one only by a final
      strip. */
  lemma CleanCellIntendedIsStrippedCleanCell(cell: string)
    ensures CleanCellIntended(cell) == Strip(CleanCell(cell))
  {
    var t := Strip(cell);
    TrailingCommasAndFirstComma(t);
    var s := TrimRightChar(t, ',');
    var k := IndexOf(t, ',');
    assert BeforeFirst(t, ',') == t[..k];
    if k < |s| {
      StripKeepsTrimmed(CleanCell(cell));
    }
  }

  /** The intended cleaning is idempotent; the written one is not (see
      `TrailingCommaKeepsSpace`). */
  lemma CleanCellIntendedIdempotent(cell: string)
    ensures CleanCellIntended(CleanCellIntended(cell)) == CleanCellIntended(cell)
  {
    var u := CleanCellIntended(cell);
    StripKeepsTrimmed(u);
    assert IndexOf(u, ',') == |u|;
    assert BeforeFirst(u, ',') == u;
  }

  /** A clean URL followed by one space loses the space to `strip`. */
  lemma StripDropsPaddingSpace(u: string)
    requires u != "" && HasNoSpaceAtEnds(u)
    ensures Strip(u + " ") == u
  {
    var p := u + " ";
    assert p[0] == u[0];
    assert TrimLeft(p) == p;
    assert p[..|p| - 1] == u;
    assert SpaceFreeEnd(p) == SpaceFreeEnd(u) == |u|;
    assert TrimRight(p) == p[..|u|] == u;
  }

  /** `strip` leaves a clean URL followed by " ," as it is. */
  lemma StripKeepsCommaTail(u: string)
    requires u != "" && HasNoSpaceAtEnds(u)
    ensures Strip(u + " ,") == u + " ,"
  {
    var c := u + " ,";
    assert c[0] == u[0];
    assert TrimLeft(c) == c;
    assert TrimRight(c) == c[..|c|] == c;
  }

  /** `rstrip(",")` on a clean URL followed by " ," keeps the space. */
  lemma TrimCommaKeepsSpace(u: string)
    ensures TrimRightChar(u + " ,", ',') == u + " "
  {
    var c := u + " ,";
    assert c[..|c| - 1] == u + " ";
    assert CharFreeEnd(u + " ", ',') == |u| + 1;
    assert c[..|u| + 1] == u + " ";
  }

  /** The first comma of a comma-free URL followed by " ," is the last character. */
  lemma FirstCommaOfCommaTail(u: string)
    requires ',' !in u
    ensures BeforeFirst(u + " ,", ',') == u + " "
  {
    var c := u + " ,";
    forall i | 0 <= i < |u| + 1
      ensures c[i] != ','
    {
      if i < |u| {
        assert c[i] == u[i];
      }
    }
    assert c[|u| + 1] == ',';
    assert IndexOf(c, ',') == |u| + 1;
    assert c[..|u| + 1] == u + " ";
  }

  /** As written, a URL followed by " ," (a trailing comma with a space
      before it) keeps the space: the result differs from the URL itself,
      and cleaning it again gives yet another value, so the cleaning is not
      idempotent. The intended cleaning gives the URL. */
  lemma TrailingCommaKeepsSpace(u: string)
    requires u != "" && ',' !in u && HasNoSpaceAtEnds(u)
    ensures CleanCell(u + " ,") == u + " "
    ensures CleanCell(u) == u
    ensures CleanCell(CleanCell(u + " ,")) != CleanCell(u + " ,")
    ensures CleanCellIntended(u + " ,") == u
  {
    StripKeepsCommaTail(u);
    TrimCommaKeepsSpace(u);
    assert ',' !in u + " " by {
      forall i | 0 <= i < |u| + 1
        ensures (u + " ")[i] != ','
      {
        if i < |u| {
          assert (u + " ")[i] == u[i];
        }
      }
    }
    assert CleanCell(u + " ,") == u + " ";
    CleanCellKeepsCleanUrl(u);
    StripDropsPaddingSpace(u);
    StripKeepsTrimmed(u);
    assert CleanCell(u + " ") == CleanCell(u);
    assert |u + " "| != |u|;
    FirstCommaOfCommaTail(u);
  }
}
