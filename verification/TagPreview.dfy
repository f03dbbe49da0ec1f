/** Paging through the documents a tag operation will change. */
module TagPreview {
  import opened Wrappers
  import opened Documents
  import opened Collections

  const SampleLimit := 20

  const PageMaxLimit := 100

  datatype Failure = InvalidOperation

  /** Documents to show, and the cursor of the page after them. */
  datatype Page = Page(documents: seq<DocId>, nextAfterDocumentId: Option<DocId>)

  function PreviewFromPlan(affected: seq<DocId>, documents: seq<DocId>): Page {
    var start := if documents != [] then Some(documents[|documents| - 1]) else None;
    var last := if affected != [] then Some(affected[|affected| - 1]) else None;
    Page(documents, if start.Some? && start != last then start else None)
  }

  /** The page begins at `start`, and its cursor leads to the next document if
      there is one. */
  ghost predicate PageAt(affected: seq<DocId>, start: nat, page: Page) {
    && start + |page.documents| <= |affected|
    && page.documents == affected[start..start + |page.documents|]
    && (page.documents == [] ==> start == |affected|)
    && page.nextAfterDocumentId
         == if start + |page.documents| < |affected| then Some(affected[start + |page.documents| - 1]) else None
  }

  /** The page is as long as its limit and the rest of the documents allow. */
  ghost predicate FillsTo(affected: seq<DocId>, start: nat, page: Page, limit: int) {
    |page.documents| == if |affected| - start < limit then |affected| - start else limit
  }

  method PreviewTagOperation(affected: seq<DocId>) returns (page: Page)
    requires Distinct(affected)
    ensures PageAt(affected, 0, page)
    ensures FillsTo(affected, 0, page, SampleLimit)
  {
    var sample := affected[..if |affected| < SampleLimit then |affected| else SampleLimit];
    page := PreviewFromPlan(affected, sample);
  }

  lemma NextPage(affected: seq<DocId>, start: nat, limit: int)
    requires Distinct(affected) && start <= |affected| && 0 < limit
    ensures var end := if start + limit < |affected| then start + limit else |affected|;
            var page := PreviewFromPlan(affected, affected[start..end]);
            PageAt(affected, start, page) && FillsTo(affected, start, page, limit)
  {
  }

  /** The page after a document, while the plan is the reviewed one. */
  method PreviewTagOperationPage(affected: seq<DocId>, after: Option<DocId>, limit: int)
    returns (r: Result<Page, Failure>)
    requires Distinct(affected)
    ensures r.Ok? <==> 1 <= limit <= PageMaxLimit && (after.Some? ==> after.value in affected)
    ensures r.Ok? && after.None? ==> PageAt(affected, 0, r.value) && FillsTo(affected, 0, r.value, limit)
    ensures r.Ok? && after.Some? ==> forall i | 0 <= i < |affected| && affected[i] == after.value ::
              PageAt(affected, i + 1, r.value) && FillsTo(affected, i + 1, r.value, limit)
  {
    if limit <= 0 || limit > PageMaxLimit {
      return Err(InvalidOperation);
    }
    var start := 0;
    if after.Some? {
      while start < |affected| && affected[start] != after.value
        invariant 0 <= start <= |affected| && after.value !in affected[..start]
      {
        start := start + 1;
      }
      if start == |affected| {
        assert affected[..start] == affected;
        return Err(InvalidOperation);
      }
      start := start + 1;
    }
    NextPage(affected, start, limit);
    hide PageAt, FillsTo;
    var end := if start + limit < |affected| then start + limit else |affected|;
    r := Ok(PreviewFromPlan(affected, affected[start..end]));
  }

  /** The sample and then one page after another, with any valid limits, list
      every affected document exactly once and in order. */
  method WalkPreview(affected: seq<DocId>, limits: nat -> int) returns (listed: seq<DocId>)
    requires Distinct(affected) && forall n :: 1 <= limits(n) <= PageMaxLimit
    ensures listed == affected
  {
    var page := PreviewTagOperation(affected);
    listed := page.documents;
    var n := 0;
    while page.nextAfterDocumentId.Some?
      invariant |listed| <= |affected| && listed == affected[..|listed|]
      invariant |page.documents| <= |listed| && PageAt(affected, |listed| - |page.documents|, page)
      decreases |affected| - |listed|
    {
      assert page.nextAfterDocumentId.value == affected[|listed| - 1];
      var next := PreviewTagOperationPage(affected, page.nextAfterDocumentId, limits(n));
      page := next.value;
      listed := listed + page.documents;
      n := n + 1;
    }
  }
}
