/**
 The two phases together: an enrichment run fills the store, and a later
 migration copies the store to the destination.
 */
module Pipeline {
  import opened Values
  import opened Community
  import opened Transform
  import opened RecordStore
  import opened Orchestrator
  import opened Loader

  /** The agent always answers, the serialised payload parses back to its
      JSON object, and the destination accepts everything. */
  ghost predicate HappyPath(e: Enrichment, m: Migration) {
    && (forall i: nat, u: string :: e.enrich(i, u).Some?)
    && (forall c: CommunityInfo :: m.parse(e.dump(c)) == Some(ToJson(c)))
    && AcceptsAll(m)
  }

  /** The stored row of an enriched URL prepares to a document whose data
      source is that URL. */
  lemma StoredRowPrepares(row: Row, index: nat, e: Enrichment, m: Migration, c: CommunityInfo)
    requires HappyPath(e, m)
    requires row.enrichedData == e.dump(c)
    ensures Prepare(row, index, m).Some?
    ensures Prepare(row, index, m).value.dataSource == row.url
  {
    EnrichedPayloadTransforms(c, row.url, m.clock(index));
  }

  /** The enrichment phase of the two-site scenario on an empty store: two
      distinct sites are both enriched and stored in list order. */
  lemma TwoSitesEnriched(a: string, b: string, e: Enrichment)
    requires a != b
    requires forall i: nat, u: string :: e.enrich(i, u).Some?
    ensures var st := Run([a, b], [], e);
            && st.processed == 2 && st.skipped == 0 && st.failed == 0
            && st.table == [
                 Row(a, e.dump(e.enrich(0, a).value), e.clock(0), e.clock(0)),
                 Row(b, e.dump(e.enrich(1, b).value), e.clock(1), e.clock(1))]
  {
    var urls := [a, b];
    assert urls[..1][..0] == [] && urls[..|urls| - 1] == urls[..1];
    var st0 := RunState([], 0, 0, 0, []);
    assert e.enrich(0, a).Some?;
    EnrichedUrlAppended(st0, a, e);
    var st1 := Orchestrator.Step(st0, a, e);
    assert Run(urls[..1], [], e) == st1;
    assert Keys(st1.table) == {a};
    assert e.enrich(1, b).Some?;
    EnrichedUrlAppended(st1, b, e);
  }

  /** Two rows that both prepare contribute their two documents in order. */
  lemma PreparedPair(rowA: Row, rowB: Row, m: Migration)
    requires Prepare(rowA, 0, m).Some? && Prepare(rowB, 1, m).Some?
    ensures Prepared([rowA, rowB], m) == [Prepare(rowA, 0, m).value, Prepare(rowB, 1, m).value]
  {
    var rows := [rowA, rowB];
    assert rows[..1] == [rowA] && rows[..1][..0] == [];
    assert Prepared([rowA], m) == [Prepare(rowA, 0, m).value];
  }

  /** The migration phase: two stored rows written by the agent's serialiser
      go out in one insert of two documents, in store order. */
  lemma TwoRowsMigrated(rowA: Row, rowB: Row, a: CommunityInfo, b: CommunityInfo, e: Enrichment, m: Migration)
    requires HappyPath(e, m) && m.batchSize == 10
    requires rowA.enrichedData == e.dump(a) && rowB.enrichedData == e.dump(b)
    ensures var r := Load([rowA, rowB], m);
            && r.Completed? && r.processed == 2 && r.failed == 0
            && |r.attempts| == 1 && |r.attempts[0]| == 2
            && r.attempts[0][0].dataSource == rowA.url
            && r.attempts[0][1].dataSource == rowB.url
  {
    StoredRowPrepares(rowA, 0, e, m, a);
    StoredRowPrepares(rowB, 1, e, m, b);
    PreparedPair(rowA, rowB, m);
    var docs := [Prepare(rowA, 0, m).value, Prepare(rowB, 1, m).value];
    ShortStoreOneInsert([rowA, rowB], m);
    assert Load([rowA, rowB], m) == Completed(2, 0, [docs]);
  }

  /** Two new sites, both enriched, then migrated with batches of ten: the
      store holds two rows, the summary is two processed and nothing skipped
      or failed, and one insert writes exactly two documents whose data
      sources are the two URLs in list order. */
  lemma TwoSitesEndToEnd(a: string, b: string, e: Enrichment, m: Migration)
    requires a != b
    requires HappyPath(e, m) && m.batchSize == 10
    ensures var st := Run([a, b], [], e);
            && st.processed == 2 && st.skipped == 0 && st.failed == 0
            && |st.table| == 2
            && var r := Load(st.table, m);
               && r.Completed? && r.processed == 2 && r.failed == 0
               && |r.attempts| == 1 && |r.attempts[0]| == 2
               && r.attempts[0][0].dataSource == a
               && r.attempts[0][1].dataSource == b
  {
    TwoSitesEnriched(a, b, e);
    var infoA := e.enrich(0, a).value;
    var infoB := e.enrich(1, b).value;
    TwoRowsMigrated(Row(a, e.dump(infoA), e.clock(0), e.clock(0)),
                    Row(b, e.dump(infoB), e.clock(1), e.clock(1)), infoA, infoB, e, m);
  }
}
