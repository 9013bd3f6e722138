/** The seen-marker filter shared by both worker revisions (`filter_new_submissions`): a post is new
    when the marker lookup at its own index answered nil and it was created within the recency
    window. */
module Dedup {
  import opened Store
  import opened Reddit

  /** Created strictly after `now - RECENT_OFFSET`: a post exactly at the boundary is too old. */
  predicate Recent(p: Submission, now: int) {
    p.createdUtc > now - RECENT_OFFSET
  }

  /** Post `i` passes both stages: a status exists at index `i`, it is nil, and the post is recent. */
  predicate IsNew(statuses: seq<Status>, subs: seq<Submission>, now: int, i: nat)
    requires i < |subs|
  {
    i < |statuses| && statuses[i].Nil? && Recent(subs[i], now)
  }

  /** The filter from index `i` on, in input order. */
  function FilterFrom(statuses: seq<Status>, subs: seq<Submission>, now: int, i: nat): seq<Submission>
    requires i <= |subs|
    decreases |subs| - i
  {
    if i == |subs| then []
    else (if IsNew(statuses, subs, now, i) then [subs[i]] else []) + FilterFrom(statuses, subs, now, i + 1)
  }

  function Filter(statuses: seq<Status>, subs: seq<Submission>, now: int): seq<Submission> {
    FilterFrom(statuses, subs, now, 0)
  }

  /** The input positions of the posts the filter keeps. */
  function NewIndicesFrom(statuses: seq<Status>, subs: seq<Submission>, now: int, i: nat): seq<nat>
    requires i <= |subs|
    decreases |subs| - i
  {
    if i == |subs| then []
    else (if IsNew(statuses, subs, now, i) then [i] else []) + NewIndicesFrom(statuses, subs, now, i + 1)
  }

  function NewIndices(statuses: seq<Status>, subs: seq<Submission>, now: int): seq<nat> {
    NewIndicesFrom(statuses, subs, now, 0)
  }

  predicate StrictlyIncreasing(s: seq<nat>) {
    forall a, b | 0 <= a < b < |s| :: s[a] < s[b]
  }

  lemma {:induction false} FilterFromSelects(statuses: seq<Status>, subs: seq<Submission>, now: int, i: nat)
    requires i <= |subs|
    ensures var news := FilterFrom(statuses, subs, now, i);
            var idx := NewIndicesFrom(statuses, subs, now, i);
            && |news| == |idx|
            && StrictlyIncreasing(idx)
            && (forall j | 0 <= j < |idx| :: i <= idx[j] < |subs| && news[j] == subs[idx[j]])
            && (forall k | i <= k < |subs| :: k in idx <==> IsNew(statuses, subs, now, k))
    decreases |subs| - i
  {
    if i < |subs| {
      FilterFromSelects(statuses, subs, now, i + 1);
      var news := FilterFrom(statuses, subs, now, i);
      var idx := NewIndicesFrom(statuses, subs, now, i);
      var news' := FilterFrom(statuses, subs, now, i + 1);
      var idx' := NewIndicesFrom(statuses, subs, now, i + 1);
      if IsNew(statuses, subs, now, i) {
        assert news == [subs[i]] + news';
        assert idx == [i] + idx';
        assert forall j | 0 < j < |idx| :: idx[j] == idx'[j - 1] && news[j] == news'[j - 1];
        assert forall j | 0 <= j < |idx'| :: idx'[j] > i;
      } else {
        assert news == news' && idx == idx';
        assert i !in idx' by {
          assert forall j | 0 <= j < |idx'| :: idx'[j] != i;
        }
      }
    }
  }

  /** The filter's output is the subsequence of the input made of exactly the new posts, in input
      order: position `k` of the input is kept iff its lookup answered nil and the post is recent. */
  lemma FilterSelects(statuses: seq<Status>, subs: seq<Submission>, now: int)
    ensures var news := Filter(statuses, subs, now);
            var idx := NewIndices(statuses, subs, now);
            && |news| == |idx|
            && StrictlyIncreasing(idx)
            && (forall j | 0 <= j < |idx| :: idx[j] < |subs| && news[j] == subs[idx[j]])
            && (forall k | 0 <= k < |subs| :: k in idx <==> IsNew(statuses, subs, now, k))
  {
    FilterFromSelects(statuses, subs, now, 0);
  }

  /** Every kept post is recent and had a nil lookup at its own index; so a post with a marker, or one
      created at or before `now - RECENT_OFFSET`, is never kept. */
  lemma FilterKeepsOnlyNew(statuses: seq<Status>, subs: seq<Submission>, now: int)
    ensures forall p | p in Filter(statuses, subs, now) ::
      p in subs && Recent(p, now)
    ensures forall p | p in Filter(statuses, subs, now) ::
      exists k | 0 <= k < |subs| :: subs[k] == p && k < |statuses| && statuses[k].Nil?
    ensures |Filter(statuses, subs, now)| <= |subs|
  {
    FilterSelects(statuses, subs, now);
    var news := Filter(statuses, subs, now);
    var idx := NewIndices(statuses, subs, now);
    forall p | p in news
      ensures p in subs && Recent(p, now)
      ensures exists k | 0 <= k < |subs| :: subs[k] == p && k < |statuses| && statuses[k].Nil?
    {
      var j :| 0 <= j < |news| && news[j] == p;
      assert idx[j] in idx;
      assert IsNew(statuses, subs, now, idx[j]);
    }
    SizeOfIncreasing(idx, |subs|);
  }

  lemma {:induction false} SizeOfIncreasing(s: seq<nat>, n: nat)
    requires StrictlyIncreasing(s)
    requires forall j | 0 <= j < |s| :: s[j] < n
    ensures |s| <= n
    decreases n
  {
    if s != [] {
      var last := s[|s| - 1];
      var init := s[..|s| - 1];
      assert forall j | 0 <= j < |init| :: init[j] < last;
      SizeOfIncreasing(init, last);
    }
  }

  /** When no position passes, the filter keeps nothing. */
  lemma {:induction false} FilterNoneNew(statuses: seq<Status>, subs: seq<Submission>, now: int, i: nat)
    requires i <= |subs|
    requires forall k | i <= k < |subs| :: !IsNew(statuses, subs, now, k)
    ensures FilterFrom(statuses, subs, now, i) == []
    decreases |subs| - i
  {
    if i < |subs| {
      FilterNoneNew(statuses, subs, now, i + 1);
    }
  }

  /** A post too old to be new gets no marker key from the filter's result, as long as no recent post
      of the batch shares its id. */
  lemma FilterSkipsTooOld(statuses: seq<Status>, subs: seq<Submission>, now: int, k: nat)
    requires k < |subs| && !Recent(subs[k], now)
    requires forall j | 0 <= j < |subs| && Recent(subs[j], now) :: subs[j].id != subs[k].id
    ensures Key(subs[k]) !in Keys(Filter(statuses, subs, now))
  {
    FilterSelects(statuses, subs, now);
    var news := Filter(statuses, subs, now);
    var idx := NewIndices(statuses, subs, now);
    if Key(subs[k]) in Keys(news) {
      var j :| 0 <= j < |news| && Keys(news)[j] == Key(subs[k]);
      assert idx[j] in idx;
      assert IsNew(statuses, subs, now, idx[j]);
      KeyInjective(subs[idx[j]], subs[k]);
      assert false;
    }
  }
}
