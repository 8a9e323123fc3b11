/** The batch phase (app.py, lines 128-142): every prompt is submitted to a
    pool of MAX_WORKERS threads, and a single loop consumes the finished
    renders in completion order, counting them, keeping the truthy images and
    writing a progress line after each. The pool is modelled by its only
    observable effect on that loop: the outcomes arrive as a permutation,
    `order`, of the submitted ones. */
module Batch {
  import opened Json
  import opened Render

  /** Number of prompts requested in batch mode, and the total shown in the
      progress line. */
  const BATCH_SIZE: nat := 30
  /** Thread-pool width; it changes only the completion order. */
  const MAX_WORKERS: nat := 3

  /** One progress report: the status line `(completed/total)`. */
  datatype Progress = Progress(completed: nat, total: nat)

  /** The images the loop keeps from a sequence of completions: the truthy
      results, in order. */
  function Successes(s: seq<Outcome>): (r: seq<Bytes>)
    ensures |r| <= |s|
    ensures forall x :: x in r ==> |x| > 0
  {
    if s == [] then []
    else Successes(s[..|s| - 1]) + (if Truthy(s[|s| - 1]) then [s[|s| - 1].data] else [])
  }

  /** The outcomes of all submitted renders, indexed by submission: prompt i
      is rendered against the i-th reply of the image API. */
  function Submitted(prompts: seq<JsonValue>, replies: nat -> ImageReply): seq<Outcome>
  {
    seq(|prompts|, i requires 0 <= i < |prompts| => RenderImage(prompts[i], replies(i)))
  }

  /** The submission indices 0..n-1, in order. */
  function Indices(n: nat): seq<nat>
  {
    seq(n, i => i)
  }

  /** Every index in `order` names one of n submitted futures. */
  predicate InRange(order: seq<nat>, n: nat)
  {
    forall k :: 0 <= k < |order| ==> order[k] < n
  }

  /** `order` lists each of the n submitted futures exactly once: the order
      in which as_completed yields them. */
  predicate IsCompletionOrder(order: seq<nat>, n: nat)
  {
    |order| == n &&
    InRange(order, n) &&
    multiset(order) == multiset(Indices(n))
  }

  /** The outcomes as the loop sees them, in completion order. */
  function Completions(outcomes: seq<Outcome>, order: seq<nat>): (r: seq<Outcome>)
    requires InRange(order, |outcomes|)
    ensures |r| == |order|
  {
    seq(|order|, k requires 0 <= k < |order| => outcomes[order[k]])
  }

  /** The aggregation loop (lines 134-142) over the completions. */
  method Aggregate(completions: seq<Outcome>)
    returns (completedCount: nat, imagesData: seq<Bytes>, reports: seq<Progress>)
    ensures completedCount == |completions|
    ensures imagesData == Successes(completions)
    ensures |reports| == |completions|
    ensures forall k :: 0 <= k < |reports| ==> reports[k] == Progress(k + 1, BATCH_SIZE)
  {
    imagesData, completedCount, reports := [], 0, [];
    for i := 0 to |completions|
      invariant completedCount == i
      invariant imagesData == Successes(completions[..i])
      invariant |reports| == i
      invariant forall k :: 0 <= k < i ==> reports[k] == Progress(k + 1, BATCH_SIZE)
    {
      assert completions[..i + 1][..i] == completions[..i];
      match completions[i] {
        case Image(data) =>
          if |data| > 0 {
            imagesData := imagesData + [data];
          }
        case NoImage =>
        case Raised =>  // `except: pass`
      }
      completedCount := completedCount + 1;
      reports := reports + [Progress(completedCount, BATCH_SIZE)];
    }
    assert completions[..|completions|] == completions;
  }

  /** Lines 132-142: submit every prompt, then aggregate the outcomes in the
      order the pool finishes them. */
  method RunBatch(prompts: seq<JsonValue>, replies: nat -> ImageReply, order: seq<nat>)
    returns (completedCount: nat, imagesData: seq<Bytes>, reports: seq<Progress>)
    requires IsCompletionOrder(order, |prompts|)
    // every submitted render is counted, whatever its outcome
    ensures completedCount == |prompts|
    ensures imagesData == Successes(Completions(Submitted(prompts, replies), order))
    // the images collected do not depend on the completion order, only
    // their order in imagesData does
    ensures multiset(imagesData) == multiset(Successes(Submitted(prompts, replies)))
    ensures |reports| == |prompts|
    ensures forall k :: 0 <= k < |reports| ==> reports[k] == Progress(k + 1, BATCH_SIZE)
  {
    var outcomes := Submitted(prompts, replies);
    var completions := Completions(outcomes, order);
    completedCount, imagesData, reports := Aggregate(completions);
    CompletionsPermute(outcomes, order);
    SuccessesReorder(completions, outcomes);
  }

  /** Keeping the truthy results distributes over concatenation: the loop
      filters and never reorders. */
  lemma {:induction false} SuccessesAppend(a: seq<Outcome>, b: seq<Outcome>)
    ensures Successes(a + b) == Successes(a) + Successes(b)
    decreases |b|
  {
    if b == [] {
      assert a + b == a;
    } else {
      var b' := b[..|b| - 1];
      assert (a + b)[..|a + b| - 1] == a + b';
      SuccessesAppend(a, b');
    }
  }

  /** An image ends up in the collection exactly when some completion
      carried it as non-empty bytes. */
  lemma {:induction false} SuccessesMembers(s: seq<Outcome>, x: Bytes)
    ensures x in Successes(s) <==> Image(x) in s && |x| > 0
  {
    if s != [] {
      var s' := s[..|s| - 1];
      SuccessesMembers(s', x);
      assert s == s' + [s[|s| - 1]];
      assert Image(x) in s <==> Image(x) in s' || s[|s| - 1] == Image(x);
    }
  }

  /** No truthy completion means nothing collected (the "no image at all"
      error), and the converse. */
  lemma {:induction false} SuccessesEmptyIff(s: seq<Outcome>)
    ensures Successes(s) == [] <==> forall k :: 0 <= k < |s| ==> !Truthy(s[k])
  {
    if s != [] {
      var s' := s[..|s| - 1];
      SuccessesEmptyIff(s');
      assert forall k :: 0 <= k < |s'| ==> s'[k] == s[k];
    }
  }

  /** Every image is kept exactly when every completion is truthy. */
  lemma {:induction false} SuccessesAllIff(s: seq<Outcome>)
    ensures |Successes(s)| == |s| <==> forall k :: 0 <= k < |s| ==> Truthy(s[k])
  {
    if s != [] {
      var s' := s[..|s| - 1];
      SuccessesAllIff(s');
      assert forall k :: 0 <= k < |s'| ==> s'[k] == s[k];
    }
  }

  /** The number of collected images is the number of completions minus
      the failed ones (None, empty bytes or an exception), for any mix. */
  lemma {:induction false} SuccessesCount(s: seq<Outcome>, failed: set<nat>)
    requires forall k: nat :: k in failed <==> k < |s| && !Truthy(s[k])
    ensures |Successes(s)| == |s| - |failed|
  {
    if s == [] {
      assert failed == {} by {
        forall k: nat | k in failed ensures false { }
      }
    } else {
      var n := |s| - 1;
      var s' := s[..n];
      var failed' := failed - {n};
      forall k: nat ensures k in failed' <==> k < |s'| && !Truthy(s'[k]) {
        if k < |s'| { assert s'[k] == s[k]; }
      }
      SuccessesCount(s', failed');
      if Truthy(s[n]) {
        assert n !in failed;
        assert failed' == failed;
      } else {
        assert n in failed;
        assert |failed'| == |failed| - 1;
      }
    }
  }

  /** Taking element i out of a sequence takes one copy of it out of the
      multiset. */
  lemma RemoveAt<T>(b: seq<T>, i: nat)
    requires i < |b|
    ensures b == b[..i] + [b[i]] + b[i + 1..]
    ensures multiset(b[..i] + b[i + 1..]) == multiset(b) - multiset{b[i]}
  {
    assert b == b[..i] + [b[i]] + b[i + 1..];
    assert multiset(b) == multiset(b[..i]) + multiset{b[i]} + multiset(b[i + 1..]);
  }

  /** Dropping the last element takes one copy of it out of the multiset. */
  lemma RemoveLast<T>(a: seq<T>)
    requires a != []
    ensures a == a[..|a| - 1] + [a[|a| - 1]]
    ensures multiset(a[..|a| - 1]) == multiset(a) - multiset{a[|a| - 1]}
  {
    assert a == a[..|a| - 1] + [a[|a| - 1]];
  }

  /** Successes of a sequence with one element singled out. */
  lemma SuccessesAround(b: seq<Outcome>, i: nat)
    requires i < |b|
    ensures Successes(b) == Successes(b[..i]) + Successes([b[i]]) + Successes(b[i + 1..])
    ensures Successes(b[..i] + b[i + 1..]) == Successes(b[..i]) + Successes(b[i + 1..])
  {
    RemoveAt(b, i);
    SuccessesAppend(b[..i], [b[i]]);
    SuccessesAppend(b[..i] + [b[i]], b[i + 1..]);
    SuccessesAppend(b[..i], b[i + 1..]);
  }

  /** Reordering the completions reorders the collected images and nothing
      more. */
  lemma {:induction false} SuccessesReorder(a: seq<Outcome>, b: seq<Outcome>)
    requires multiset(a) == multiset(b)
    ensures multiset(Successes(a)) == multiset(Successes(b))
    decreases |a|
  {
    if a == [] {
      assert |b| == |multiset(b)| == 0;
    } else {
      var x := a[|a| - 1];
      var a' := a[..|a| - 1];
      RemoveLast(a);
      assert x in multiset(b);
      var i :| 0 <= i < |b| && b[i] == x;
      RemoveAt(b, i);
      SuccessesReorder(a', b[..i] + b[i + 1..]);
      SuccessesAround(b, i);
      SuccessesAppend(a', [x]);
    }
  }

  /** Completion order distributes over concatenation of the order. */
  lemma CompletionsAppend(s: seq<Outcome>, p: seq<nat>, q: seq<nat>)
    requires InRange(p, |s|) && InRange(q, |s|)
    ensures Completions(s, p + q) == Completions(s, p) + Completions(s, q)
  {
  }

  /** Completions of an order with one index singled out. */
  lemma CompletionsAround(s: seq<Outcome>, q: seq<nat>, i: nat)
    requires InRange(q, |s|) && i < |q|
    ensures multiset(Completions(s, q)) ==
      multiset(Completions(s, q[..i] + q[i + 1..])) + multiset{s[q[i]]}
  {
    RemoveAt(q, i);
    CompletionsAppend(s, q[..i], [q[i]]);
    CompletionsAppend(s, q[..i] + [q[i]], q[i + 1..]);
    CompletionsAppend(s, q[..i], q[i + 1..]);
  }

  /** One step of CompletionsReorder: appending index x on one side and
      having it at position i on the other. */
  lemma CompletionsReorderStep(s: seq<Outcome>, p: seq<nat>, q: seq<nat>, i: nat)
    requires InRange(p, |s|) && InRange(q, |s|) && i < |q| && q[i] < |s|
    requires InRange(q[..i] + q[i + 1..], |s|)
    requires multiset(Completions(s, p)) == multiset(Completions(s, q[..i] + q[i + 1..]))
    ensures InRange(p + [q[i]], |s|)
    ensures multiset(Completions(s, p + [q[i]])) == multiset(Completions(s, q))
  {
    CompletionsAppend(s, p, [q[i]]);
    assert Completions(s, [q[i]]) == [s[q[i]]];
    CompletionsAround(s, q, i);
  }

  /** Removing position i keeps every index in range. */
  lemma InRangeRemove(q: seq<nat>, i: nat, n: nat)
    requires InRange(q, n) && i < |q|
    ensures InRange(q[..i] + q[i + 1..], n)
  {
    var q' := q[..i] + q[i + 1..];
    forall k | 0 <= k < |q'| ensures q'[k] < n {
      if k < i { assert q'[k] == q[k]; } else { assert q'[k] == q[k + 1]; }
    }
  }

  /** Two orders listing the same indices yield the same multiset of
      outcomes. */
  lemma {:induction false} CompletionsReorder(s: seq<Outcome>, p: seq<nat>, q: seq<nat>)
    requires InRange(p, |s|) && InRange(q, |s|)
    requires multiset(p) == multiset(q)
    ensures multiset(Completions(s, p)) == multiset(Completions(s, q))
    decreases |p|
  {
    if p == [] {
      assert |q| == |multiset(q)| == 0;
    } else {
      var x := p[|p| - 1];
      var p' := p[..|p| - 1];
      RemoveLast(p);
      assert x in multiset(q);
      var i :| 0 <= i < |q| && q[i] == x;
      RemoveAt(q, i);
      InRangeRemove(q, i, |s|);
      assert InRange(p', |s|);
      CompletionsReorder(s, p', q[..i] + q[i + 1..]);
      CompletionsReorderStep(s, p', q, i);
    }
  }

  /** Whatever the completion order, the loop sees every submitted outcome
      exactly once. */
  lemma CompletionsPermute(s: seq<Outcome>, order: seq<nat>)
    requires IsCompletionOrder(order, |s|)
    ensures multiset(Completions(s, order)) == multiset(s)
  {
    var ids := Indices(|s|);
    CompletionsReorder(s, order, ids);
    assert Completions(s, ids) == s;
  }
}
