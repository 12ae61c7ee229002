/**
 The local record store: the `communities` table with a UNIQUE `url`
 column, kept as its sequence of rows in insertion (rowid) order. The
 SQL statements become functions on that sequence; `Keys` and `Lookup`
 give the url-keyed map view. Connections, cursors and commits are not
 modelled, and the `CURRENT_TIMESTAMP` of a statement is the `now`
 parameter.
 */
module RecordStore {
  import opened Values

  datatype Row = Row(url: string, enrichedData: string, createdAt: string, updatedAt: string)

  type Table = seq<Row>

  /** The UNIQUE constraint on `url`. */
  predicate UniqueUrls(t: Table) {
    forall i, j :: 0 <= i < j < |t| ==> t[i].url != t[j].url
  }

  function Keys(t: Table): set<string> {
    set i | 0 <= i < |t| :: t[i].url
  }

  lemma KeysCons(t: Table)
    requires |t| > 0
    ensures Keys(t) == {t[0].url} + Keys(t[1..])
  {
    forall u | u in Keys(t)
      ensures u in {t[0].url} + Keys(t[1..])
    {
      var i :| 0 <= i < |t| && t[i].url == u;
      if i > 0 {
        assert t[1..][i - 1].url == u;
      }
    }
    forall u | u in Keys(t[1..])
      ensures u in Keys(t)
    {
      var i :| 0 <= i < |t[1..]| && t[1..][i].url == u;
      assert t[i + 1].url == u;
    }
  }

  /** `CREATE TABLE IF NOT EXISTS`: a database file without the table gets an
      empty one; an existing table is left exactly as it is. */
  function InitDatabase(db: Option<Table>): (t: Table)
    ensures db.Some? ==> t == db.value
    ensures db.None? ==> t == [] && UniqueUrls(t)
  {
    match db
    case None => []
    case Some(existing) => existing
  }

  /** Running the initialisation again creates nothing and changes no row. */
  lemma InitIdempotent(db: Option<Table>)
    ensures InitDatabase(Some(InitDatabase(db))) == InitDatabase(db)
    ensures db.Some? ==> Keys(InitDatabase(db)) == Keys(db.value)
  {
  }

  /** `SELECT COUNT(*) FROM communities WHERE url = ?` */
  function CountUrl(t: Table, url: string): (n: nat)
    ensures n <= |t|
    ensures n == 0 <==> url !in Keys(t)
  {
    if t == [] then 0
    else
      KeysCons(t);
      (if t[0].url == url then 1 else 0) + CountUrl(t[1..], url)
  }

  /** Under the UNIQUE constraint a url matches at most one row. */
  lemma {:induction false} UniqueCountAtMostOne(t: Table, url: string)
    requires UniqueUrls(t)
    ensures CountUrl(t, url) <= 1
  {
    if t != [] {
      KeysCons(t);
      assert UniqueUrls(t[1..]);
      UniqueCountAtMostOne(t[1..], url);
      if t[0].url == url {
        assert url !in Keys(t[1..]);
      }
    }
  }

  /** `url_exists`: the count of matching rows is positive. */
  function UrlExists(t: Table, url: string): (b: bool)
    ensures b <==> exists i :: 0 <= i < |t| && t[i].url == url
  {
    CountUrl(t, url) > 0
  }

  /** The row `fetchone()` returns for `WHERE url = ?`: the first match. */
  function Lookup(t: Table, url: string): (r: Option<Row>)
    ensures r.None? <==> url !in Keys(t)
    ensures r.Some? ==> r.value in t && r.value.url == url
  {
    if t == [] then None
    else
      KeysCons(t);
      if t[0].url == url then Some(t[0]) else Lookup(t[1..], url)
  }

  /** `get_community_data`: the stored text of the url's row, or null when absent. */
  function GetCommunityData(t: Table, url: string): (r: Option<string>)
    ensures r.None? <==> !UrlExists(t, url)
    ensures r.Some? ==> exists i :: 0 <= i < |t| && t[i].url == url && t[i].enrichedData == r.value
  {
    match Lookup(t, url)
    case None => None
    case Some(row) => Some(row.enrichedData)
  }

  /** The rows whose url differs: what the REPLACE conflict resolution leaves
      after deleting the conflicting row. */
  function Without(t: Table, url: string): (r: Table)
    ensures |r| <= |t|
    ensures url !in Keys(r)
    ensures forall row :: row in r <==> row in t && row.url != url
  {
    if t == [] then []
    else (if t[0].url == url then [] else [t[0]]) + Without(t[1..], url)
  }

  lemma HeadTail(t: Table)
    requires t != []
    ensures [t[0]] + t[1..] == t
  {
  }

  /** Deleting an absent url deletes nothing. */
  lemma {:induction false} WithoutAbsent(t: Table, url: string)
    requires url !in Keys(t)
    ensures Without(t, url) == t
  {
    if t != [] {
      KeysCons(t);
      WithoutAbsent(t[1..], url);
      assert Without(t, url) == [t[0]] + t[1..];
      HeadTail(t);
    }
  }

  /** Saving a new url appends one row and moves no other row. */
  lemma SaveNewAppends(t: Table, url: string, json: string, now: string)
    requires url !in Keys(t)
    ensures SaveCommunityData(t, url, json, now) == t + [Row(url, json, now, now)]
  {
    WithoutAbsent(t, url);
  }

  lemma {:induction false} WithoutKeepsUnique(t: Table, url: string)
    requires UniqueUrls(t)
    ensures UniqueUrls(Without(t, url))
  {
    if t != [] {
      assert UniqueUrls(t[1..]);
      WithoutKeepsUnique(t[1..], url);
      var rest := Without(t[1..], url);
      if t[0].url != url {
        forall j | 0 <= j < |rest|
          ensures rest[j].url != t[0].url
        {
          assert rest[j] in t[1..];
        }
      }
    }
  }

  lemma {:induction false} WithoutKeepsOtherLookups(t: Table, url: string, other: string)
    requires other != url
    ensures Lookup(Without(t, url), other) == Lookup(t, other)
  {
    if t != [] {
      WithoutKeepsOtherLookups(t[1..], url, other);
      var rest := Without(t[1..], url);
      if t[0].url == url {
        assert Without(t, url) == rest;
      } else {
        var w := [t[0]] + rest;
        assert Without(t, url) == w;
        assert w[0] == t[0] && w[1..] == rest;
      }
    }
  }

  lemma {:induction false} LookupAppend(t: Table, row: Row, u: string)
    ensures Lookup(t + [row], u) ==
              if u in Keys(t) then Lookup(t, u) else if row.url == u then Some(row) else None
  {
    if t == [] {
      assert [row][1..] == [];
    } else {
      KeysCons(t);
      assert (t + [row])[1..] == t[1..] + [row];
      LookupAppend(t[1..], row, u);
    }
  }

  lemma ReplaceKeepsUnique(t: Table, row: Row)
    requires UniqueUrls(t)
    ensures UniqueUrls(Without(t, row.url) + [row])
  {
    var kept := Without(t, row.url);
    WithoutKeepsUnique(t, row.url);
    forall i | 0 <= i < |kept|
      ensures kept[i].url != row.url
    {
      assert kept[i] in kept;
    }
  }

  lemma ReplaceKeys(t: Table, row: Row)
    ensures Keys(Without(t, row.url) + [row]) == Keys(t) + {row.url}
  {
    var url := row.url;
    var kept := Without(t, url);
    var t' := kept + [row];
    forall u | u in Keys(t)
      ensures u in Keys(t')
    {
      var i :| 0 <= i < |t| && t[i].url == u;
      if u != url {
        assert t[i] in kept;
        var j :| 0 <= j < |kept| && kept[j] == t[i];
        assert t'[j].url == u;
      } else {
        assert t'[|kept|].url == u;
      }
    }
    assert t'[|kept|].url == url;
    forall u | u in Keys(t')
      ensures u in Keys(t) + {url}
    {
      var i :| 0 <= i < |t'| && t'[i].url == u;
      if i < |kept| {
        assert kept[i] in t;
      }
    }
  }

  lemma ReplaceLookups(t: Table, row: Row)
    ensures var t' := Without(t, row.url) + [row];
            && Lookup(t', row.url) == Some(row)
            && forall other :: other != row.url ==> Lookup(t', other) == Lookup(t, other)
  {
    var kept := Without(t, row.url);
    LookupAppend(kept, row, row.url);
    forall other | other != row.url
      ensures Lookup(kept + [row], other) == Lookup(t, other)
    {
      LookupAppend(kept, row, other);
      WithoutKeepsOtherLookups(t, row.url, other);
    }
  }

  /** The facts the REPLACE statement's result rests on. */
  lemma ReplaceFacts(t: Table, row: Row)
    ensures var t' := Without(t, row.url) + [row];
            && (UniqueUrls(t) ==> UniqueUrls(t'))
            && Keys(t') == Keys(t) + {row.url}
            && Lookup(t', row.url) == Some(row)
            && forall other :: other != row.url ==> Lookup(t', other) == Lookup(t, other)
  {
    if UniqueUrls(t) {
      ReplaceKeepsUnique(t, row);
    }
    ReplaceKeys(t, row);
    ReplaceLookups(t, row);
  }

  /** `save_community_data` (INSERT OR REPLACE): any row for `url` is deleted
      and a fresh row is appended. Neither `created_at` nor `updated_at` of
      the old row survives: both take the statement's time. Every other
      url's row is untouched and the UNIQUE constraint still holds. */
  function SaveCommunityData(t: Table, url: string, json: string, now: string): (t': Table)
    ensures UniqueUrls(t) ==> UniqueUrls(t')
    ensures Keys(t') == Keys(t) + {url}
    ensures Lookup(t', url) == Some(Row(url, json, now, now))
    ensures forall other :: other != url ==> Lookup(t', other) == Lookup(t, other)
  {
    var row := Row(url, json, now, now);
    ReplaceFacts(t, row);
    Without(t, url) + [row]
  }

  /** After a save the url exists and reads back exactly the text saved. */
  lemma SaveThenGet(t: Table, url: string, json: string, now: string)
    ensures UrlExists(SaveCommunityData(t, url, json, now), url)
    ensures GetCommunityData(SaveCommunityData(t, url, json, now), url) == Some(json)
  {
    var t' := SaveCommunityData(t, url, json, now);
    assert url in Keys(t');
  }

  /** `get_all_urls`: one entry per row, so under the UNIQUE constraint every
      stored url appears exactly once and nothing else appears. */
  function GetAllUrls(t: Table): (urls: seq<string>)
    ensures |urls| == |t|
    ensures forall u :: u in urls <==> u in Keys(t)
    ensures UniqueUrls(t) ==> forall i, j :: 0 <= i < j < |urls| ==> urls[i] != urls[j]
  {
    var urls := seq(|t|, i requires 0 <= i < |t| => t[i].url);
    assert forall i :: 0 <= i < |t| ==> urls[i] == t[i].url;
    urls
  }

  /** Under the UNIQUE constraint, the number of urls is the number of keys. */
  lemma {:induction false} UniqueKeysCount(t: Table)
    requires UniqueUrls(t)
    ensures |Keys(t)| == |t|
  {
    if t != [] {
      KeysCons(t);
      assert UniqueUrls(t[1..]);
      UniqueKeysCount(t[1..]);
      forall i | 0 <= i < |t[1..]|
        ensures t[1..][i].url != t[0].url
      {
        assert t[1..][i] == t[i + 1];
      }
    }
  }
}
