/**
 * The history page: it fetches `/api/submissions` once and, when the reply
 * carries a `submissions` list, splits it into the uploaded-file documents
 * and the topic documents by `sourceType`.
 */
module History {
  import opened Common
  import opened ServerStore

  /** The page's two lists. */
  datatype HistoryState = HistoryState(pdfHistory: seq<Submission>, nonPdfHistory: seq<Submission>)

  /** The page before the fetch completes. */
  const Initial: HistoryState := HistoryState([], [])

  /** `items.filter(s => s.sourceType === tag)`: the items carrying `tag`, in their original order. */
  function FilterBySource(items: seq<Submission>, tag: string): (r: seq<Submission>)
    ensures |r| <= |items|
    ensures forall i :: 0 <= i < |r| ==> r[i].sourceType == tag
    ensures forall d :: d in r <==> d in items && d.sourceType == tag
  {
    if |items| == 0 then []
    else
      var front := FilterBySource(items[..|items| - 1], tag);
      var last := items[|items| - 1];
      assert items == items[..|items| - 1] + [last];
      if last.sourceType == tag then front + [last] else front
  }

  /** Filtering distributes over concatenation, so the order of the input is the order of the output. */
  lemma {:induction false} FilterAppend(a: seq<Submission>, b: seq<Submission>, tag: string)
    ensures FilterBySource(a + b, tag) == FilterBySource(a, tag) + FilterBySource(b, tag)
    decreases |b|
  {
    if |b| > 0 {
      var b' := b[..|b| - 1];
      assert (a + b)[..|a + b| - 1] == a + b';
      assert (a + b)[|a + b| - 1] == b[|b| - 1];
      FilterAppend(a, b', tag);
    } else {
      assert a + b == a;
    }
  }

  /** One item passes the filter, once, exactly when it carries `tag`. */
  lemma FilterSingle(d: Submission, tag: string)
    ensures FilterBySource([d], tag) == if d.sourceType == tag then [d] else []
  {
    assert [d][..0] == [];
  }

  /** A list whose items all carry `tag` passes the filter for `tag` whole and the filter for any other tag not at all. */
  lemma {:induction false} FilterOfUniform(items: seq<Submission>, tag: string, other: string)
    requires forall i :: 0 <= i < |items| ==> items[i].sourceType == tag
    requires other != tag
    ensures FilterBySource(items, tag) == items
    ensures FilterBySource(items, other) == []
    decreases |items|
  {
    if |items| > 0 {
      FilterOfUniform(items[..|items| - 1], tag, other);
      assert items == items[..|items| - 1] + [items[|items| - 1]];
    }
  }

  /** Appending one item to either side of a multiset split keeps it a split of the extended list. */
  lemma AppendToSplit<T>(a: seq<T>, b: seq<T>, whole: seq<T>, x: T)
    requires multiset(a) + multiset(b) == multiset(whole)
    ensures multiset(a + [x]) + multiset(b) == multiset(whole + [x])
    ensures multiset(a) + multiset(b + [x]) == multiset(whole + [x])
  {
  }

  /**
   * The split is a partition of the documents the server can hold: every
   * "pdf" or "non-pdf" item lands in exactly one list, as often as it occurs.
   */
  lemma {:induction false} FilterPartitions(items: seq<Submission>)
    requires forall i :: 0 <= i < |items| ==> items[i].sourceType == "pdf" || items[i].sourceType == "non-pdf"
    ensures multiset(FilterBySource(items, "pdf")) + multiset(FilterBySource(items, "non-pdf")) == multiset(items)
    decreases |items|
  {
    if |items| > 0 {
      var front := items[..|items| - 1];
      var last := items[|items| - 1];
      assert forall i :: 0 <= i < |front| ==> front[i] == items[i];
      FilterPartitions(front);
      var pdf := FilterBySource(front, "pdf");
      var nonPdf := FilterBySource(front, "non-pdf");
      AppendToSplit(pdf, nonPdf, front, last);
      assert items == front + [last];
      if last.sourceType == "pdf" {
        assert FilterBySource(items, "pdf") == pdf + [last];
        assert FilterBySource(items, "non-pdf") == nonPdf;
      } else {
        assert FilterBySource(items, "pdf") == pdf;
        assert FilterBySource(items, "non-pdf") == nonPdf + [last];
      }
    }
  }

  /**
   * `fetchHistory`, given the body the server replied with (`None` when the
   * request or `response.json()` threw). A body with a `submissions` field
   * replaces both lists by its items of each tag, in the order of the list;
   * any other body, and a failure, leaves them as they were.
   */
  function FetchHistory(s: HistoryState, reply: Option<Body>): (r: HistoryState)
    ensures (reply.None? || !reply.value.Submissions?) ==> r == s
    ensures reply.Some? && reply.value.Submissions? ==>
              && (forall d :: d in r.pdfHistory <==> d in reply.value.items && d.sourceType == "pdf")
              && (forall d :: d in r.nonPdfHistory <==> d in reply.value.items && d.sourceType == "non-pdf")
              && (forall d :: !(d in r.pdfHistory && d in r.nonPdfHistory))
              && r == HistoryState(FilterBySource(reply.value.items, "pdf"), FilterBySource(reply.value.items, "non-pdf"))
  {
    match reply
    case Some(Submissions(items)) => HistoryState(FilterBySource(items, "pdf"), FilterBySource(items, "non-pdf"))
    case _ => s
  }
}
