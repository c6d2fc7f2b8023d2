/**
 * `split_into_chunks`, shared verbatim by the three generator scripts:
 * the sentences of a text are grouped `max_sentences_per_chunk` at a time,
 * `sentences[i:i + k]` for `i` in `range(0, len(sentences), k)`, and every
 * group is joined with single spaces. Sentence tokenization is not modelled:
 * the sentence list is the input.
 */
module Chunking {
  import opened Common
  import Text

  /** The concatenation of a list of groups, in order. */
  function Flatten<T>(gs: seq<seq<T>>): seq<T> {
    if |gs| == 0 then [] else gs[0] + Flatten(gs[1..])
  }

  /** Every group holds between 1 and `k` items, and every group but the last holds exactly `k`. */
  predicate Chunked<T>(gs: seq<seq<T>>, k: nat) {
    && (forall j :: 0 <= j < |gs| ==> 0 < |gs[j]| <= k)
    && (forall j :: 0 <= j < |gs| - 1 ==> |gs[j]| == k)
  }

  /** The sentence groups of the chunking loop, `k` at a time from the front. */
  function SentenceGroups<T>(s: seq<T>, k: nat): (gs: seq<seq<T>>)
    requires k > 0
    ensures |gs| == 0 <==> |s| == 0
    decreases |s|
  {
    if |s| == 0 then []
    else if |s| <= k then [s]
    else [s[..k]] + SentenceGroups(s[k..], k)
  }

  /** The groups are a partition of the input in order: flattened they give it back, and each holds at most `k`, only the last fewer. */
  lemma {:induction false} GroupsPartition<T>(s: seq<T>, k: nat)
    requires k > 0
    ensures Flatten(SentenceGroups(s, k)) == s
    ensures Chunked(SentenceGroups(s, k), k)
    decreases |s|
  {
    if |s| > k {
      var rest := SentenceGroups(s[k..], k);
      GroupsPartition(s[k..], k);
      var gs := [s[..k]] + rest;
      assert gs[1..] == rest;
      assert forall j :: 1 <= j < |gs| ==> gs[j] == rest[j - 1];
    }
  }

  /** Where group `j` starts: `j` steps of `k`, by repeated addition. */
  function GroupStart(j: nat, k: nat): nat {
    if j == 0 then 0 else GroupStart(j - 1, k) + k
  }

  /** The start of group `j` is the loop index `j * k`. */
  lemma {:induction false} GroupStartIsProduct(j: nat, k: nat)
    ensures GroupStart(j, k) == j * k
  {
    if j > 0 {
      GroupStartIsProduct(j - 1, k);
      assert (j - 1) * k + k == j * k;
    }
  }

  /** Past the first group, group `j` is group `j - 1` of the sentences after the first `k`. */
  lemma GroupStep<T>(s: seq<T>, k: nat, j: nat)
    requires k > 0 && 0 < j < |SentenceGroups(s, k)|
    ensures |s| > k && |SentenceGroups(s, k)| == |SentenceGroups(s[k..], k)| + 1
    ensures SentenceGroups(s, k)[j] == SentenceGroups(s[k..], k)[j - 1]
  {
  }

  lemma SliceShift<T>(s: seq<T>, k: nat, start: nat)
    requires k <= start <= |s|
    ensures s[k..][start - k .. Min(start, |s| - k)] == s[start .. Min(start + k, |s|)]
  {
  }

  /** The first group is the first `k` items, or all of them when there are fewer. */
  lemma FirstGroup<T>(s: seq<T>, k: nat)
    requires k > 0 && 0 < |SentenceGroups(s, k)|
    ensures 0 < |s| && SentenceGroups(s, k)[0] == s[0 .. Min(k, |s|)]
  {
  }

  /** Group `j` is exactly Python's slice `s[start : start + k]` at the loop index `start` of round `j`. */
  lemma {:induction false} GroupIsSlice<T>(s: seq<T>, k: nat, j: nat)
    requires k > 0 && j < |SentenceGroups(s, k)|
    ensures GroupStart(j, k) < |s|
    ensures SentenceGroups(s, k)[j] == s[GroupStart(j, k) .. Min(GroupStart(j, k) + k, |s|)]
    decreases j
  {
    if j == 0 {
      FirstGroup(s, k);
    } else {
      var start := GroupStart(j, k);
      assert start == GroupStart(j - 1, k) + k;
      GroupStep(s, k, j);
      GroupIsSlice(s[k..], k, j - 1);
      SliceShift(s, k, start);
    }
  }

  /** The loop makes ceil(len(s) / k) groups: the last group starts before the end and the next would start at or after it. */
  lemma {:induction false} GroupCount<T>(s: seq<T>, k: nat)
    requires k > 0
    ensures var c := |SentenceGroups(s, k)|;
            && |s| <= GroupStart(c, k)
            && (c > 0 ==> GroupStart(c - 1, k) < |s|)
    decreases |s|
  {
    if |s| > k {
      GroupCount(s[k..], k);
      var c := |SentenceGroups(s[k..], k)|;
      assert c > 0;
      assert GroupStart(c + 1, k) == GroupStart(c, k) + k;
      assert GroupStart(c, k) == GroupStart(c - 1, k) + k;
    } else if |s| > 0 {
      assert GroupStart(1, k) == k;
    }
  }

  lemma MulCancel(a: int, b: int, k: int)
    requires k > 0 && a * k < b * k
    ensures a < b
  {
  }

  /** A count `c` with `(c - 1) * k < n <= c * k` is the ceiling quotient. */
  lemma CeilingQuotient(n: int, k: int, c: int)
    requires k > 0 && n >= 0 && (c - 1) * k < n <= c * k
    ensures c == (n + k - 1) / k
  {
    var m := n + k - 1;
    var q := m / k;
    assert q * k <= m < q * k + k;
    assert (q + 1) * k == q * k + k && (c + 1) * k == c * k + k && (c - 1) * k == c * k - k;
    MulCancel(c, q + 1, k);
    MulCancel(q, c + 1, k);
  }

  /** The group count, in the loop's own terms: the ceiling of the input length over `k`. */
  lemma GroupCountIsCeiling<T>(s: seq<T>, k: nat)
    requires k > 0
    ensures var c := |SentenceGroups(s, k)|; (c - 1) * k < |s| <= c * k && c == (|s| + k - 1) / k
    ensures |SentenceGroups(s, k)| == 0 <==> |s| == 0
  {
    var c := |SentenceGroups(s, k)|;
    GroupCount(s, k);
    GroupStartIsProduct(c, k);
    if c > 0 {
      GroupStartIsProduct(c - 1, k);
    }
    CeilingQuotient(|s|, k, c);
  }

  /** Group `j` at the loop index `j * k`. */
  lemma GroupAtProduct<T>(s: seq<T>, k: nat, j: nat)
    requires k > 0 && j < |SentenceGroups(s, k)|
    ensures j * k < |s| && SentenceGroups(s, k)[j] == s[j * k .. Min(j * k + k, |s|)]
  {
    GroupIsSlice(s, k, j);
    GroupStartIsProduct(j, k);
  }

  /** Every group is the slice at its loop index. */
  lemma GroupSlices<T>(s: seq<T>, k: nat)
    requires k > 0
    ensures forall j :: 0 <= j < |SentenceGroups(s, k)| ==>
              j * k < |s| && SentenceGroups(s, k)[j] == s[j * k .. Min(j * k + k, |s|)]
  {
    forall j | 0 <= j < |SentenceGroups(s, k)|
      ensures j * k < |s| && SentenceGroups(s, k)[j] == s[j * k .. Min(j * k + k, |s|)]
    {
      GroupAtProduct(s, k, j);
    }
  }

  /** Any grouping of `s` into chunks of `k` is the loop's: the partition is unique. */
  lemma {:induction false} ChunkingIsUnique<T>(gs: seq<seq<T>>, s: seq<T>, k: nat)
    requires k > 0 && Flatten(gs) == s && Chunked(gs, k)
    ensures gs == SentenceGroups(s, k)
    decreases |gs|
  {
    if |gs| == 1 {
      assert Flatten(gs[1..]) == [];
      assert Flatten(gs) == gs[0] + Flatten(gs[1..]);
      assert gs[0] == s;
      assert gs == [s];
    } else if |gs| > 1 {
      var tail := gs[1..];
      assert Chunked(tail, k) by {
        forall j | 0 <= j < |tail| ensures 0 < |tail[j]| <= k {
          assert tail[j] == gs[j + 1];
        }
        forall j | 0 <= j < |tail| - 1 ensures |tail[j]| == k {
          assert tail[j] == gs[j + 1];
        }
      }
      assert Flatten(tail) == tail[0] + Flatten(tail[1..]);
      assert |s| > k;
      assert s[..k] == gs[0] && s[k..] == Flatten(tail);
      ChunkingIsUnique(tail, s[k..], k);
      assert gs == [gs[0]] + tail;
    }
  }

  /**
   * `split_into_chunks` on an already tokenized sentence list. There are
   * ceil(len / k) chunks, none for an empty list, and chunk `j` is the
   * sentences `j*k` up to `j*k + k` joined with single spaces.
   */
  function SplitIntoChunks(sentences: seq<string>, k: nat): (chunks: seq<string>)
    requires k > 0
    ensures (|chunks| - 1) * k < |sentences| <= |chunks| * k
    ensures |chunks| == (|sentences| + k - 1) / k
    ensures |sentences| == 0 <==> |chunks| == 0
    ensures forall j :: 0 <= j < |chunks| ==>
              j * k < |sentences| && chunks[j] == Text.JoinWith(" ", sentences[j * k .. Min(j * k + k, |sentences|)])
  {
    var groups := SentenceGroups(sentences, k);
    GroupCountIsCeiling(sentences, k);
    GroupSlices(sentences, k);
    var chunks := seq(|groups|, j requires 0 <= j < |groups| => Text.JoinWith(" ", groups[j]));
    assert |chunks| == |groups|;
    assert forall j :: 0 <= j < |chunks| ==> chunks[j] == Text.JoinWith(" ", groups[j]);
    chunks
  }

  /** Python's `xs[:n]`: the first `n` items, where a negative `n` drops that many items from the end. */
  function PyPrefix<T>(xs: seq<T>, n: int): (r: seq<T>)
    ensures r <= xs
    ensures n >= 0 ==> |r| == Min(n, |xs|)
    ensures n < 0 ==> |r| == Max(0, |xs| + n)
  {
    if n >= 0 then xs[..Min(n, |xs|)] else xs[..Max(0, |xs| + n)]
  }

  /** The generators' loop `for chunk in chunks: results.append(entry(chunk))`: one result per chunk, in chunk order. */
  function ForEachChunk<R>(chunks: seq<string>, entry: string -> R): (r: seq<R>)
    ensures |r| == |chunks|
    ensures forall i :: 0 <= i < |r| ==> r[i] == entry(chunks[i])
  {
    if |chunks| == 0 then []
    else ForEachChunk(chunks[..|chunks| - 1], entry) + [entry(chunks[|chunks| - 1])]
  }
}
