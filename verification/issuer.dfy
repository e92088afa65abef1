/** api/generate-urls.js: give every page of the database's first data
    source whose "Public ID" is empty a fresh id and the tracker URL built
    from it. The id generator (uuidv4) is the parameter `ids`: the k-th page
    updated receives `ids(k)`. The store's failures are the `Faults` input. */
module Issuer {
  import opened Wrappers
  import opened Notion

  const SiteUrl := "https://client-front-end-tracker.vercel.app"
  const PublicIdKey := "Public ID"
  const UrlKey := "Url"

  /** The public link for an id, `${SITE_URL}/t/${id}`. */
  function TrackerUrl(id: string): string {
    SiteUrl + "/t/" + id
  }

  datatype DataSource = DataSource(id: string, pages: seq<Page>)

  /** What `databases.retrieve` reports; a missing `data_sources` is `None`. */
  datatype Database = Database(dataSources: Option<seq<DataSource>>)

  /** Which store calls fail: the database retrieval, the page query, or the
      update of any of the listed page ids. */
  datatype Faults = Faults(retrieveThrows: bool, queryThrows: bool, failingPages: set<string>)

  predicate HasDataSource(db: Database) {
    db.dataSources.Some? && |db.dataSources.value| > 0
  }

  /** The store's filter `"Public ID" rich_text is_empty`. */
  predicate NeedsId(p: Page) {
    PublicIdKey in p.properties && p.properties[PublicIdKey].RichText? && PlainText(p.properties[PublicIdKey].segments) == ""
  }

  /** The query result: the pages that need an id, in store order. */
  function Selected(pages: seq<Page>): (chosen: seq<Page>)
    ensures |chosen| <= |pages|
    ensures forall i :: 0 <= i < |chosen| ==> NeedsId(chosen[i])
    decreases |pages|
  {
    if |pages| == 0 then []
    else (if NeedsId(pages[0]) then [pages[0]] else []) + Selected(pages[1..])
  }

  /** The query returns exactly the pages that need an id. */
  lemma {:induction false} SelectedExactly(pages: seq<Page>)
    ensures forall p :: p in Selected(pages) <==> p in pages && NeedsId(p)
    decreases |pages|
  {
    if |pages| > 0 {
      SelectedExactly(pages[1..]);
      assert pages == [pages[0]] + pages[1..];
    }
  }

  /** One `pages.update` call. */
  datatype Write = Write(pageId: string, publicId: string, url: string)

  /** The updates issued, one per selected page in order, the k-th drawing
      the generator's (next + k)-th id. */
  function Plan(pages: seq<Page>, ids: nat -> string, next: nat): seq<Write>
    decreases |pages|
  {
    if |pages| == 0 then []
    else if NeedsId(pages[0]) then
      [Write(pages[0].id, ids(next), TrackerUrl(ids(next)))] + Plan(pages[1..], ids, next + 1)
    else Plan(pages[1..], ids, next)
  }

  /** Update k goes to the k-th selected page, carries the generator's
      (next + k)-th id, and the link built from that id. */
  lemma {:induction false} PlanWrites(pages: seq<Page>, ids: nat -> string, next: nat)
    ensures |Plan(pages, ids, next)| == |Selected(pages)|
    ensures forall k :: 0 <= k < |Plan(pages, ids, next)| ==> Plan(pages, ids, next)[k].pageId == Selected(pages)[k].id
    ensures forall k :: 0 <= k < |Plan(pages, ids, next)| ==> Plan(pages, ids, next)[k].publicId == ids(next + k)
    ensures forall k :: 0 <= k < |Plan(pages, ids, next)| ==>
      Plan(pages, ids, next)[k].url == TrackerUrl(Plan(pages, ids, next)[k].publicId)
    decreases |pages|
  {
    if |pages| > 0 {
      var writes := Plan(pages, ids, next);
      var chosen := Selected(pages[1..]);
      if NeedsId(pages[0]) {
        var rest := Plan(pages[1..], ids, next + 1);
        PlanWrites(pages[1..], ids, next + 1);
        var w := Write(pages[0].id, ids(next), TrackerUrl(ids(next)));
        assert writes == [w] + rest;
        assert Selected(pages) == [pages[0]] + chosen;
        forall k | 0 <= k < |writes|
          ensures writes[k].pageId == Selected(pages)[k].id
          ensures writes[k].publicId == ids(next + k)
          ensures writes[k].url == TrackerUrl(writes[k].publicId)
        {
          if k > 0 {
            PlanWriteAt(w, rest, pages[0], chosen, k);
          }
        }
      } else {
        PlanWrites(pages[1..], ids, next);
        assert Selected(pages) == chosen;
      }
    }
  }

  /** Index arithmetic for a plan that starts with one update. */
  lemma PlanWriteAt(w: Write, rest: seq<Write>, p: Page, chosen: seq<Page>, k: int)
    requires 0 < k < |rest| + 1 && |rest| == |chosen|
    ensures ([w] + rest)[k] == rest[k - 1]
    ensures ([p] + chosen)[k] == chosen[k - 1]
  {
  }

  /** The page after an update lands: "Public ID" becomes a single text run
      holding the id and "Url" the link; no other property changes. */
  function Applied(p: Page, w: Write): (q: Page)
    ensures q.id == p.id
    ensures PublicIdKey in q.properties && UrlKey in q.properties
    ensures q.properties[PublicIdKey] == RichText([Segment(w.publicId)])
    ensures q.properties[UrlKey] == Url(Some(w.url))
    ensures forall k :: k != PublicIdKey && k != UrlKey ==>
      (k in q.properties <==> k in p.properties) && (k in p.properties ==> q.properties[k] == p.properties[k])
  {
    p.(properties := p.properties[PublicIdKey := RichText([Segment(w.publicId)])][UrlKey := Url(Some(w.url))])
  }

  /** Applying one update to the store: the page with the update's id changes. */
  function ApplyWrite(pages: seq<Page>, w: Write): seq<Page> {
    seq(|pages|, i requires 0 <= i < |pages| => if pages[i].id == w.pageId then Applied(pages[i], w) else pages[i])
  }

  /** Applying the updates one after another. */
  function ApplyAll(pages: seq<Page>, writes: seq<Write>): seq<Page>
    decreases |writes|
  {
    if |writes| == 0 then pages else ApplyAll(ApplyWrite(pages, writes[0]), writes[1..])
  }

  /** `q` is `p` given the id in its "Public ID" and the matching link. */
  predicate Issued(q: Page, p: Page) {
    && PublicIdKey in q.properties
    && q.properties[PublicIdKey].RichText?
    && |q.properties[PublicIdKey].segments| == 1
    && var id := q.properties[PublicIdKey].segments[0].plainText;
       q == Applied(p, Write(p.id, id, TrackerUrl(id)))
  }

  /** The id an issued page carries. */
  function IssuedId(q: Page): string
    requires PublicIdKey in q.properties && q.properties[PublicIdKey].RichText?
    requires |q.properties[PublicIdKey].segments| == 1
  {
    q.properties[PublicIdKey].segments[0].plainText
  }

  /** The intended store after a complete run, page by page: a page that
      needed an id has been issued one drawn from the generator, and every
      other page is unchanged. */
  function Stamped(pages: seq<Page>, ids: nat -> string, next: nat): (after: seq<Page>)
    ensures |after| == |pages|
    ensures forall i :: 0 <= i < |pages| ==> after[i].id == pages[i].id
    ensures forall i :: 0 <= i < |pages| && !NeedsId(pages[i]) ==> after[i] == pages[i]
    ensures forall i :: 0 <= i < |pages| && NeedsId(pages[i]) ==>
      Issued(after[i], pages[i]) && exists k :: next <= k && IssuedId(after[i]) == ids(k)
    decreases |pages|
  {
    if |pages| == 0 then []
    else
      var rest := Stamped(pages[1..], ids, next + (if NeedsId(pages[0]) then 1 else 0));
      var head := if NeedsId(pages[0]) then Applied(pages[0], Write(pages[0].id, ids(next), TrackerUrl(ids(next))))
        else pages[0];
      var after := [head] + rest;
      assert forall i :: 1 <= i < |after| ==> after[i] == rest[i - 1] && pages[i] == pages[1..][i - 1];
      after
  }

  /** Store page ids are unique. */
  predicate DistinctIds(pages: seq<Page>) {
    forall i, j :: 0 <= i < j < |pages| ==> pages[i].id != pages[j].id
  }

  /** An update aimed at another page leaves the head page alone. */
  lemma {:induction false} ApplyAllSkips(q: Page, rest: seq<Page>, writes: seq<Write>)
    requires forall k :: 0 <= k < |writes| ==> writes[k].pageId != q.id
    ensures ApplyAll([q] + rest, writes) == [q] + ApplyAll(rest, writes)
    decreases |writes|
  {
    if |writes| > 0 {
      assert ApplyWrite([q] + rest, writes[0]) == [q] + ApplyWrite(rest, writes[0]);
      ApplyAllSkips(q, ApplyWrite(rest, writes[0]), writes[1..]);
    }
  }

  /** Every planned update targets a page of the list it was planned from. */
  lemma PlanTargetsListedPages(pages: seq<Page>, ids: nat -> string, next: nat, k: int)
    requires 0 <= k < |Plan(pages, ids, next)|
    ensures exists j :: 0 <= j < |pages| && pages[j].id == Plan(pages, ids, next)[k].pageId
  {
    PlanWrites(pages, ids, next);
    SelectedExactly(pages);
    var p := Selected(pages)[k];
    assert p in Selected(pages);
    var j :| 0 <= j < |pages| && pages[j] == p;
  }

  /** An update aimed at the head page changes only the head. */
  lemma ApplyWriteToHead(p: Page, rest: seq<Page>, w: Write)
    requires w.pageId == p.id
    requires forall i :: 0 <= i < |rest| ==> rest[i].id != p.id
    ensures ApplyWrite([p] + rest, w) == [Applied(p, w)] + rest
  {
  }

  /** The updates planned for the tail never aim at the head page. */
  lemma TailPlanAvoidsHead(pages: seq<Page>, ids: nat -> string, n: nat)
    requires |pages| > 0 && DistinctIds(pages)
    ensures forall k :: 0 <= k < |Plan(pages[1..], ids, n)| ==> Plan(pages[1..], ids, n)[k].pageId != pages[0].id
  {
    var rest := pages[1..];
    forall k | 0 <= k < |Plan(rest, ids, n)| ensures Plan(rest, ids, n)[k].pageId != pages[0].id {
      PlanTargetsListedPages(rest, ids, n, k);
      var j :| 0 <= j < |rest| && rest[j].id == Plan(rest, ids, n)[k].pageId;
      assert pages[j + 1] == rest[j];
    }
  }

  /** Applying the issued updates one after another yields exactly the
      intended store, since they target distinct pages. */
  lemma {:induction false} ApplyPlanIsStamped(pages: seq<Page>, ids: nat -> string, next: nat)
    requires DistinctIds(pages)
    ensures ApplyAll(pages, Plan(pages, ids, next)) == Stamped(pages, ids, next)
    decreases |pages|
  {
    if |pages| > 0 {
      var p, rest := pages[0], pages[1..];
      assert pages == [p] + rest;
      assert DistinctIds(rest);
      var n := next + (if NeedsId(p) then 1 else 0);
      var later := Plan(rest, ids, n);
      TailPlanAvoidsHead(pages, ids, n);
      ApplyPlanIsStamped(rest, ids, n);
      if NeedsId(p) {
        var w := Write(p.id, ids(next), TrackerUrl(ids(next)));
        assert Plan(pages, ids, next) == [w] + later;
        assert ([w] + later)[1..] == later;
        forall i | 0 <= i < |rest| ensures rest[i].id != p.id {
          assert pages[i + 1] == rest[i];
        }
        ApplyWriteToHead(p, rest, w);
        ApplyAllSkips(Applied(p, w), rest, later);
        assert Stamped(pages, ids, next) == [Applied(p, w)] + Stamped(rest, ids, n);
      } else {
        ApplyAllSkips(p, rest, later);
        assert Stamped(pages, ids, next) == [p] + Stamped(rest, ids, n);
      }
    }
  }

  /** Why a run answers 500: the database reports no data source (the error
      "No data sources found for this database."), or a store call threw. */
  datatype Cause = NoDataSources | StoreError

  /** The handler's answer: "No new projects to update.", "Successfully
      updated <count> project(s).", or "Failed to generate URLs." */
  datatype Reply = NoNewProjects | Updated(count: nat) | GenerationFailed(cause: Cause) {
    function StatusCode(): int {
      if GenerationFailed? then 500 else 200
    }
  }

  /** A run: the reply and the updates it issued. */
  datatype Run = Run(reply: Reply, writes: seq<Write>)

  /** True when retrieval and query succeed and a data source exists. */
  predicate Reachable(db: Database, faults: Faults) {
    !faults.retrieveThrows && HasDataSource(db) && !faults.queryThrows
  }

  /** The pages the run selects: those of the first data source needing an id. */
  function Candidates(db: Database): seq<Page>
    requires HasDataSource(db)
  {
    Selected(db.dataSources.value[0].pages)
  }

  /** The updates a run plans, each written as one record: the k-th
      selected page receives the generator's k-th id and its link. */
  lemma IssuedWrites(pages: seq<Page>, ids: nat -> string)
    ensures |Plan(pages, ids, 0)| == |Selected(pages)|
    ensures forall k :: 0 <= k < |Plan(pages, ids, 0)| ==>
      Plan(pages, ids, 0)[k] == Write(Selected(pages)[k].id, ids(k), TrackerUrl(ids(k)))
  {
    PlanWrites(pages, ids, 0);
    var writes := Plan(pages, ids, 0);
    forall k | 0 <= k < |writes|
      ensures writes[k] == Write(Selected(pages)[k].id, ids(k), TrackerUrl(ids(k)))
    {
      assert writes[k].publicId == ids(0 + k);
    }
  }

  /** One invocation of the handler. */
  function Generate(db: Database, ids: nat -> string, faults: Faults): (run: Run)
    ensures !faults.retrieveThrows && !HasDataSource(db) ==> run == Run(GenerationFailed(NoDataSources), [])
    ensures !Reachable(db, faults) ==> run.reply.GenerationFailed? && run.writes == []
    ensures run.reply.NoNewProjects? <==> Reachable(db, faults) && |Candidates(db)| == 0
    ensures run.reply.NoNewProjects? ==> run.writes == []
    ensures run.reply.StatusCode() == 200 <==>
      Reachable(db, faults) && forall p :: p in Candidates(db) ==> p.id !in faults.failingPages
    ensures run.reply.Updated? ==> run.reply.count == |Candidates(db)| == |run.writes| > 0
    ensures |run.writes| > 0 ==> Reachable(db, faults) && |run.writes| == |Candidates(db)|
    ensures |run.writes| > 0 ==> forall k :: 0 <= k < |run.writes| ==>
      run.writes[k].pageId == Candidates(db)[k].id && run.writes[k].url == TrackerUrl(run.writes[k].publicId)
    ensures forall k :: 0 <= k < |run.writes| ==> run.writes[k].publicId == ids(k)
  {
    if faults.retrieveThrows then Run(GenerationFailed(StoreError), [])
    else if !HasDataSource(db) then Run(GenerationFailed(NoDataSources), [])
    else if faults.queryThrows then Run(GenerationFailed(StoreError), [])
    else
      var selected := Candidates(db);
      if |selected| == 0 then Run(NoNewProjects, [])
      else
        var writes := Plan(db.dataSources.value[0].pages, ids, 0);
        IssuedWrites(db.dataSources.value[0].pages, ids);
        if exists k :: 0 <= k < |writes| && writes[k].pageId in faults.failingPages then
          Run(GenerationFailed(StoreError), writes)
        else
          assert forall p :: p in selected ==> p.id !in faults.failingPages by {
            forall p | p in selected ensures p.id !in faults.failingPages {
              var k :| 0 <= k < |selected| && selected[k] == p;
              assert writes[k].pageId == p.id;
            }
          }
          Run(Updated(|writes|), writes)
  }

  /** The store after a run whose updates all landed: the first data
      source's pages with the writes applied; other data sources untouched. */
  function Commit(db: Database, ids: nat -> string): Database {
    if !HasDataSource(db) then db
    else
      var first := db.dataSources.value[0];
      var pages := ApplyAll(first.pages, Plan(first.pages, ids, 0));
      Database(Some([first.(pages := pages)] + db.dataSources.value[1..]))
  }

  /** After a complete run with non-empty ids, no page of the first data
      source needs an id, every page that did now carries one with its
      matching link, and every other page is unchanged. */
  lemma CommitIssuesEveryPage(db: Database, ids: nat -> string)
    requires HasDataSource(db) && DistinctIds(db.dataSources.value[0].pages)
    requires forall k :: ids(k) != ""
    ensures var before := db.dataSources.value[0].pages;
      var after := Commit(db, ids).dataSources.value[0].pages;
      && |after| == |before|
      && (forall i :: 0 <= i < |before| ==> !NeedsId(after[i]))
      && (forall i :: 0 <= i < |before| && NeedsId(before[i]) ==> Issued(after[i], before[i]))
      && (forall i :: 0 <= i < |before| && !NeedsId(before[i]) ==> after[i] == before[i])
    ensures Commit(db, ids).dataSources.value[1..] == db.dataSources.value[1..]
  {
    var before := db.dataSources.value[0].pages;
    ApplyPlanIsStamped(before, ids, 0);
    var after := Stamped(before, ids, 0);
    forall i | 0 <= i < |before| && NeedsId(before[i]) ensures !NeedsId(after[i]) {
      var k :| 0 <= k && IssuedId(after[i]) == ids(k);
    }
  }

  /** Running again right after a successful run finds nothing to update. */
  lemma SecondRunFindsNothing(db: Database, ids: nat -> string, faults: Faults, later: nat -> string, laterFaults: Faults)
    requires Generate(db, ids, faults).reply.StatusCode() == 200
    requires DistinctIds(db.dataSources.value[0].pages)
    requires forall k :: ids(k) != ""
    requires !laterFaults.retrieveThrows && !laterFaults.queryThrows
    ensures Generate(Commit(db, ids), later, laterFaults) == Run(NoNewProjects, [])
  {
    CommitIssuesEveryPage(db, ids);
    var after := Commit(db, ids).dataSources.value[0].pages;
    if |Selected(after)| > 0 {
      SelectedExactly(after);
      assert Selected(after)[0] in Selected(after);
      assert false;
    }
  }

  /** With an injective generator the ids a run writes are pairwise
      distinct. */
  lemma IssuedIdsDistinct(db: Database, ids: nat -> string, faults: Faults)
    requires forall a: nat, b: nat :: a != b ==> ids(a) != ids(b)
    ensures var writes := Generate(db, ids, faults).writes;
      forall a, b :: 0 <= a < b < |writes| ==> writes[a].publicId != writes[b].publicId
  {
    var writes := Generate(db, ids, faults).writes;
    forall a, b | 0 <= a < b < |writes| ensures writes[a].publicId != writes[b].publicId {
      assert writes[a].publicId == ids(a) && writes[b].publicId == ids(b);
    }
  }

  /** Only the first data source is consulted. */
  lemma OnlyFirstDataSourceMatters(first: DataSource, others: seq<DataSource>, ids: nat -> string, faults: Faults)
    ensures Generate(Database(Some([first] + others)), ids, faults) == Generate(Database(Some([first])), ids, faults)
  {
  }
}
