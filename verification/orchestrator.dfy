/**
 The enrichment run (`process_communities`): each URL of the input list is
 skipped when the store already has it, and otherwise enriched once and
 saved. The enrichment agent, the payload serialiser and the statement
 clock are oracles carried in an `Enrichment` value; the agent is asked by
 call number, so repeated calls for one URL may answer differently.
 */
module Orchestrator {
  import opened Values
  import opened Community
  import opened RecordStore
  import opened UrlList

  datatype Enrichment = Enrichment(
    enrich: (nat, string) -> Option<CommunityInfo>,
    dump: CommunityInfo -> string,
    clock: nat -> string)

  /** The loop's variables, the store, and (for the proofs) the URLs the
      agent was asked about, in call order. */
  datatype RunState = RunState(table: Table, processed: nat, skipped: nat, failed: nat, calls: seq<string>)

  datatype Summary = Summary(total: nat, processed: nat, skipped: nat, failed: nat)

  /** One iteration of the loop over URLs: exactly one counter grows by one,
      the agent is asked at most once and only about this URL, and no stored
      URL is lost. */
  function Step(st: RunState, url: string, e: Enrichment): (r: RunState)
    ensures || (r.processed, r.skipped, r.failed) == (st.processed + 1, st.skipped, st.failed)
            || (r.processed, r.skipped, r.failed) == (st.processed, st.skipped + 1, st.failed)
            || (r.processed, r.skipped, r.failed) == (st.processed, st.skipped, st.failed + 1)
    ensures r.calls == st.calls || r.calls == st.calls + [url]
    ensures Keys(st.table) <= Keys(r.table)
  {
    if UrlExists(st.table, url) then st.(skipped := st.skipped + 1)
    else
      var n := |st.calls|;
      match e.enrich(n, url)
      case None => st.(failed := st.failed + 1, calls := st.calls + [url])
      case Some(info) =>
        st.(table := SaveCommunityData(st.table, url, e.dump(info), e.clock(n)),
            processed := st.processed + 1,
            calls := st.calls + [url])
  }

  /** The state after the given URLs, in order, starting from store `t`. */
  function Run(urls: seq<string>, t: Table, e: Enrichment): RunState {
    if urls == [] then RunState(t, 0, 0, 0, [])
    else Step(Run(urls[..|urls| - 1], t, e), urls[|urls| - 1], e)
  }

  /** The whole command: create the table if needed, read the URLs from the
      rows of the list, run, and report the summary and the final store. */
  function ProcessCommunities(db: Option<Table>, rows: seq<seq<string>>, e: Enrichment): (r: (Summary, Table))
    ensures r.0.total == |ReadUrls(rows)|
    ensures r.0.processed + r.0.skipped + r.0.failed == r.0.total
    ensures db.Some? ==> Keys(db.value) <= Keys(r.1)
  {
    var t := InitDatabase(db);
    var urls := ReadUrls(rows);
    var st := Run(urls, t, e);
    RunCounts(urls, t, e);
    RunGrowsStore(urls, t, e);
    (Summary(|urls|, st.processed, st.skipped, st.failed), st.table)
  }

  /** A URL already in the store is skipped: the agent is not asked, and the
      store is unchanged. */
  lemma CachedUrlSkipped(st: RunState, url: string, e: Enrichment)
    requires url in Keys(st.table)
    ensures Step(st, url, e) == st.(skipped := st.skipped + 1)
  {
  }

  /** A new URL the agent enriches is saved and reads back as the dumped payload. */
  lemma EnrichedUrlSaved(st: RunState, url: string, e: Enrichment)
    requires url !in Keys(st.table)
    requires e.enrich(|st.calls|, url).Some?
    ensures var r := Step(st, url, e);
            && UrlExists(r.table, url)
            && GetCommunityData(r.table, url) == Some(e.dump(e.enrich(|st.calls|, url).value))
            && r.processed == st.processed + 1
            && r.skipped == st.skipped && r.failed == st.failed
            && r.calls == st.calls + [url]
  {
    var info := e.enrich(|st.calls|, url).value;
    SaveThenGet(st.table, url, e.dump(info), e.clock(|st.calls|));
  }

  /** On a new URL the agent enriches, the store gains one row at the end,
      stamped with the statement's time. */
  lemma EnrichedUrlAppended(st: RunState, url: string, e: Enrichment)
    requires url !in Keys(st.table)
    requires e.enrich(|st.calls|, url).Some?
    ensures var n := |st.calls|;
            Step(st, url, e).table ==
              st.table + [Row(url, e.dump(e.enrich(n, url).value), e.clock(n), e.clock(n))]
  {
    var n := |st.calls|;
    SaveNewAppends(st.table, url, e.dump(e.enrich(n, url).value), e.clock(n));
  }

  /** A new URL whose enrichment raises leaves the store as it was and is
      counted as failed; the run goes on. */
  lemma FailedUrlLeavesStore(st: RunState, url: string, e: Enrichment)
    requires url !in Keys(st.table)
    requires e.enrich(|st.calls|, url).None?
    ensures var r := Step(st, url, e);
            && r.table == st.table
            && r.failed == st.failed + 1
            && r.processed == st.processed && r.skipped == st.skipped
            && r.calls == st.calls + [url]
  {
  }

  /** Each URL increments exactly one counter, and the agent is asked at most
      once per URL occurrence: once for each processed or failed URL. */
  lemma {:induction false} RunCounts(urls: seq<string>, t: Table, e: Enrichment)
    ensures var st := Run(urls, t, e);
            && st.processed + st.skipped + st.failed == |urls|
            && |st.calls| == st.processed + st.failed
  {
    if urls != [] {
      RunCounts(urls[..|urls| - 1], t, e);
    }
  }

  /** The URLs whose enrichment call succeeded, by call number. */
  function Succeeded(calls: seq<string>, e: Enrichment): set<string> {
    set i | 0 <= i < |calls| && e.enrich(i, calls[i]).Some? :: calls[i]
  }

  lemma SucceededAppend(calls: seq<string>, url: string, e: Enrichment)
    ensures Succeeded(calls + [url], e) ==
              Succeeded(calls, e) + (if e.enrich(|calls|, url).Some? then {url} else {})
  {
    var c := calls + [url];
    forall u | u in Succeeded(c, e)
      ensures u in Succeeded(calls, e) + (if e.enrich(|calls|, url).Some? then {url} else {})
    {
      var i :| 0 <= i < |c| && e.enrich(i, c[i]).Some? && c[i] == u;
      if i < |calls| {
        assert calls[i] == c[i];
      }
    }
    forall u | u in Succeeded(calls, e)
      ensures u in Succeeded(c, e)
    {
      var i :| 0 <= i < |calls| && e.enrich(i, calls[i]).Some? && calls[i] == u;
      assert c[i] == calls[i];
    }
    if e.enrich(|calls|, url).Some? {
      assert c[|calls|] == url;
    }
  }

  /** One iteration adds at most the current URL to the store, and only when
      its enrichment call succeeds; the rows already stored are untouched. */
  lemma StepGrowsStore(st: RunState, url: string, e: Enrichment)
    ensures var r := Step(st, url, e);
            var added := if url !in Keys(st.table) && e.enrich(|st.calls|, url).Some? then {url} else {};
            && Keys(r.table) == Keys(st.table) + added
            && Succeeded(r.calls, e) == Succeeded(st.calls, e) + added
            && (forall u :: u in Keys(st.table) ==> Lookup(r.table, u) == Lookup(st.table, u))
            && (r.calls == st.calls || (r.calls == st.calls + [url] && url !in Keys(st.table)))
            && (UniqueUrls(st.table) ==> UniqueUrls(r.table))
  {
    if url !in Keys(st.table) {
      SucceededAppend(st.calls, url, e);
    }
  }

  /** The store only grows, from `t` to `st.table` over `urls`: its keys are
      the keys before plus the URLs whose enrichment succeeded; rows present
      before are untouched; the agent was never asked about a URL the store
      held before, nor about an unlisted one; and the UNIQUE constraint is kept. */
  ghost predicate StoreGrown(t: Table, urls: seq<string>, st: RunState, e: Enrichment) {
    && Keys(st.table) == Keys(t) + Succeeded(st.calls, e)
    && (forall u :: u in Keys(t) ==> Lookup(st.table, u) == Lookup(t, u))
    && (forall i :: 0 <= i < |st.calls| ==> st.calls[i] !in Keys(t) && st.calls[i] in urls)
    && (UniqueUrls(t) ==> UniqueUrls(st.table))
  }

  lemma StepKeepsStoreGrown(t: Table, urls: seq<string>, st: RunState, url: string, e: Enrichment)
    requires StoreGrown(t, urls, st, e)
    ensures StoreGrown(t, urls + [url], Step(st, url, e), e)
  {
    StepGrowsStore(st, url, e);
    var r := Step(st, url, e);
    forall i | 0 <= i < |r.calls|
      ensures r.calls[i] !in Keys(t) && r.calls[i] in urls + [url]
    {
      if i < |st.calls| {
        assert r.calls[i] == st.calls[i];
      } else {
        assert r.calls[i] == url;
      }
    }
  }

  lemma {:induction false} RunGrowsStore(urls: seq<string>, t: Table, e: Enrichment)
    ensures StoreGrown(t, urls, Run(urls, t, e), e)
  {
    if urls != [] {
      var init := urls[..|urls| - 1];
      var url := urls[|urls| - 1];
      RunGrowsStore(init, t, e);
      StepKeepsStoreGrown(t, init, Run(init, t, e), url, e);
      assert init + [url] == urls;
    }
  }

  /** A run in which no enrichment failed leaves every listed URL stored. */
  lemma {:induction false} RunWithoutFailuresStoresAll(urls: seq<string>, t: Table, e: Enrichment)
    requires Run(urls, t, e).failed == 0
    ensures forall u :: u in urls ==> u in Keys(Run(urls, t, e).table)
  {
    if urls != [] {
      var init := urls[..|urls| - 1];
      var url := urls[|urls| - 1];
      var st := Run(init, t, e);
      assert st.failed <= Run(urls, t, e).failed;
      RunWithoutFailuresStoresAll(init, t, e);
      var st' := Step(st, url, e);
      assert Keys(st.table) <= Keys(st'.table);
      assert url in Keys(st'.table);
    }
  }

  /** Over a list whose URLs are all stored, a run asks the agent nothing,
      skips everything and changes nothing. */
  lemma {:induction false} AllCachedRunIsNoOp(urls: seq<string>, t: Table, e: Enrichment)
    requires forall u :: u in urls ==> u in Keys(t)
    ensures Run(urls, t, e) == RunState(t, 0, |urls|, 0, [])
  {
    if urls != [] {
      var init := urls[..|urls| - 1];
      assert forall u :: u in init ==> u in urls;
      AllCachedRunIsNoOp(init, t, e);
    }
  }

  /** Idempotence: after a run without failures, a second run over the same
      list makes no enrichment call, reports every URL as skipped and leaves
      the store as it is, whatever the agent would answer. */
  lemma SecondRunSkipsAll(urls: seq<string>, t: Table, e1: Enrichment, e2: Enrichment)
    requires Run(urls, t, e1).failed == 0
    ensures var t1 := Run(urls, t, e1).table;
            Run(urls, t1, e2) == RunState(t1, 0, |urls|, 0, [])
  {
    RunWithoutFailuresStoresAll(urls, t, e1);
    AllCachedRunIsNoOp(urls, Run(urls, t, e1).table, e2);
  }
}
