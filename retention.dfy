/** The retention walk of `AutoAmi.DeleteOldAmi` over the images' states,
    sorted newest first. The walk starts at the oldest image and stops when
    its index falls below the retention bound; every image that is not
    `available` is skipped and raises the bound by one. */
module Retention {

  const Available := "available"

  /** Indices the walk deregisters and indices it skips, each in walk order. */
  datatype Walked = Walked(deleted: seq<nat>, skipped: seq<nat>)

  /** The walk from index `i` down, with current bound `k`. */
  function Walk(states: seq<string>, i: int, k: nat): Walked
    requires -1 <= i < |states|
    decreases i + 1
  {
    if i < k then Walked([], [])
    else if states[i] != Available then
      var rest := Walk(states, i - 1, k + 1);
      Walked(rest.deleted, [i] + rest.skipped)
    else
      var rest := Walk(states, i - 1, k);
      Walked([i] + rest.deleted, rest.skipped)
  }

  /** One step of the walk at an index outside the retained window. */
  lemma WalkStep(states: seq<string>, i: int, k: nat)
    requires k <= i < |states|
    ensures states[i] != Available ==> Walk(states, i, k).deleted == Walk(states, i - 1, k + 1).deleted
    ensures states[i] == Available ==> Walk(states, i, k).deleted == [i] + Walk(states, i - 1, k).deleted
  {
  }

  /** A pass that has deleted `done` and is about to look at index `i`
      with retention count `k` moves on to `i - 1`. */
  lemma WalkAdvance(states: seq<string>, rc: nat, done: seq<nat>, i: int, k: nat)
    requires k <= i < |states|
    requires Retired(states, rc) == done + Walk(states, i, k).deleted
    ensures states[i] != Available ==> Retired(states, rc) == done + Walk(states, i - 1, k + 1).deleted
    ensures states[i] == Available ==> Retired(states, rc) == (done + [i]) + Walk(states, i - 1, k).deleted
  {
    WalkStep(states, i, k);
    assert done + [i] + Walk(states, i - 1, k).deleted == done + ([i] + Walk(states, i - 1, k).deleted);
  }

  /** The indices a pass with retention count `k` deletes, oldest first. */
  function Retired(states: seq<string>, k: nat): seq<nat>
  {
    Walk(states, |states| - 1, k).deleted
  }

  /** Everything the walk deletes is available, everything it skips is not,
      nothing below the bound is touched, and deleted plus skipped images
      number at most `i + 1 - k`. */
  lemma {:induction false} WalkBounds(states: seq<string>, i: int, k: nat)
    requires -1 <= i < |states|
    ensures var w := Walk(states, i, k);
      && (forall t :: 0 <= t < |w.deleted| ==> k <= w.deleted[t] <= i && states[w.deleted[t]] == Available)
      && (forall t :: 0 <= t < |w.skipped| ==> k <= w.skipped[t] <= i && states[w.skipped[t]] != Available)
      && |w.deleted| + |w.skipped| <= (if i + 1 >= k then i + 1 - k else 0)
  {
    if i >= k {
      if states[i] != Available {
        WalkBounds(states, i - 1, k + 1);
      } else {
        WalkBounds(states, i - 1, k);
      }
    }
  }

  /** Deleted indices strictly decrease: the result lists the oldest first. */
  lemma {:induction false} WalkOldestFirst(states: seq<string>, i: int, k: nat)
    requires -1 <= i < |states|
    ensures var d := Walk(states, i, k).deleted;
      forall s, t :: 0 <= s < t < |d| ==> d[s] > d[t]
  {
    if i >= k {
      var k' := if states[i] != Available then k + 1 else k;
      WalkOldestFirst(states, i - 1, k');
      WalkBounds(states, i - 1, k');
    }
  }

  /** A retirement pass never deletes an image that is not available, never
      one among the `k` newest, lists what it deletes oldest first, and
      deletes and skips together at most `|states| - k` images. */
  lemma RetiredSafe(states: seq<string>, k: nat)
    ensures forall t :: 0 <= t < |Retired(states, k)| ==>
      k <= Retired(states, k)[t] < |states| && states[Retired(states, k)[t]] == Available
    ensures forall s, t :: 0 <= s < t < |Retired(states, k)| ==> Retired(states, k)[s] > Retired(states, k)[t]
    ensures |Retired(states, k)| + |Walk(states, |states| - 1, k).skipped| <= (if |states| >= k then |states| - k else 0)
    ensures k >= |states| ==> Retired(states, k) == []
  {
    WalkBounds(states, |states| - 1, k);
    WalkOldestFirst(states, |states| - 1, k);
  }

  /** Non-available images in the index range (j, i]. */
  function NotAvailableIn(states: seq<string>, j: int, i: int): nat
    requires -1 <= j && i < |states|
    decreases i - j
  {
    if i <= j then 0
    else NotAvailableIn(states, j, i - 1) + (if states[i] != Available then 1 else 0)
  }

  /** Which images the walk deletes, without the walk: image `j` is deleted
      exactly when it is available and its index is at least the bound plus
      the number of non-available images older than it. */
  lemma {:induction false} WalkDeletes(states: seq<string>, i: int, k: nat, j: int)
    requires -1 <= i < |states|
    requires -1 <= j
    ensures j in Walk(states, i, k).deleted <==>
      0 <= j <= i && states[j] == Available && j >= k + NotAvailableIn(states, j, i)
  {
    if i >= k {
      if states[i] != Available {
        WalkDeletes(states, i - 1, k + 1, j);
      } else {
        WalkDeletes(states, i - 1, k, j);
      }
      if j < i { NotAvailableInStep(states, j, i); }
    } else {
      WalkBounds(states, i, k);
    }
  }

  lemma NotAvailableInStep(states: seq<string>, j: int, i: int)
    requires -1 <= j < i < |states|
    ensures NotAvailableIn(states, j, i) == NotAvailableIn(states, j, i - 1) + (if states[i] != Available then 1 else 0)
  {
  }

  /** When every image is available, exactly the `|states| - k` oldest are
      deleted, oldest first. */
  lemma {:induction false} AllAvailableRetiresOldest(states: seq<string>, i: int, k: nat)
    requires -1 <= i < |states|
    requires forall j :: 0 <= j < |states| ==> states[j] == Available
    ensures var d := Walk(states, i, k).deleted;
      |d| == (if i + 1 >= k then i + 1 - k else 0) && forall t :: 0 <= t < |d| ==> d[t] == i - t
  {
    if i >= k {
      AllAvailableRetiresOldest(states, i - 1, k);
    }
  }

  /** Five images, newest first [available, available, pending, available,
      available], retention count 2: the two oldest are deleted, the pending
      one is skipped, and the walk stops there. */
  lemma PendingImageScenario()
    ensures Retired([Available, Available, "pending", Available, Available], 2) == [4, 3]
    ensures Walk([Available, Available, "pending", Available, Available], 4, 2).skipped == [2]
  {
  }

  /** A non-available image among the `k` newest still takes a retained
      slot: with newest-first states [pending, pending, available] and
      retention count 1, the only available image is deleted. */
  lemma PendingInRetainedWindow()
    ensures Retired(["pending", "pending", Available], 1) == [2]
  {
  }

  // ---- DeleteOldAmi as written: Go's int(retentionCount) on a 64-bit uint ----

  const Pow63: nat := 0x8000_0000_0000_0000
  const Pow64: nat := 0x1_0000_0000_0000_0000

  /** Go's conversion int(u) of a 64-bit unsigned value: values from 2^63 on
      become negative. */
  function GoInt(u: nat): int
    requires u < Pow64
  {
    if u < Pow63 then u else u - Pow64
  }

  /** The indices the written loop deregisters, and whether it ran past the
      front of the list: with a negative bound the loop reaches index -1 and
      the slice access panics. */
  datatype WalkedAsWritten = WalkedAsWritten(deleted: seq<nat>, indexPanic: bool)

  /** The walk with the loop bound compared as `i >= int(retentionCount)` and
      the bound incremented as a uint. */
  function WalkAsWritten(states: seq<string>, i: int, k: nat): WalkedAsWritten
    requires -1 <= i < |states| && k < Pow64
    decreases i + 1
  {
    if i < GoInt(k) then WalkedAsWritten([], false)
    else if i < 0 then WalkedAsWritten([], true)
    else if states[i] != Available then WalkAsWritten(states, i - 1, (k + 1) % Pow64)
    else
      var rest := WalkAsWritten(states, i - 1, k);
      WalkedAsWritten([i] + rest.deleted, rest.indexPanic)
  }

  /** With retention count 2^63 the written loop deletes the only image,
      which lies inside the retained window, and then indexes position -1;
      the modelled walk keeps the image. */
  lemma HugeRetentionCountDeletesAll()
    ensures WalkAsWritten([Available], 0, Pow63) == WalkedAsWritten([0], true)
    ensures Retired([Available], Pow63) == []
  {
    assert GoInt(Pow63) == Pow63 - Pow64 < -1;
    assert WalkAsWritten([Available], -1, Pow63) == WalkedAsWritten([], true);
  }
}
