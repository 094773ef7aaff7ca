/**
 * The pattern both handlers follow: walk a listing in order, keep some of
 * its items and issue a batch of calls for each item kept. The batch may
 * depend on how many items were kept before it, which is how the handlers'
 * k-th clock reading and k-th issued snapshot id enter the calls.
 */
module Selection {

  /** Positions, in increasing order, of the items `x` at position `i` with `keep(x, i)`. */
  function Kept<X>(xs: seq<X>, keep: (X, nat) -> bool): (idx: seq<nat>)
    ensures forall j :: 0 <= j < |idx| ==> idx[j] < |xs|
  {
    if xs == [] then []
    else Kept(xs[..|xs| - 1], keep) + (if keep(xs[|xs| - 1], |xs| - 1) then [|xs| - 1] else [])
  }

  /** The positions are exactly those of the kept items, each once, in listing order. */
  lemma {:induction false} KeptSpec<X>(xs: seq<X>, keep: (X, nat) -> bool)
    ensures forall j :: 0 <= j < |Kept(xs, keep)| ==> keep(xs[Kept(xs, keep)[j]], Kept(xs, keep)[j])
    ensures forall j, l :: 0 <= j < l < |Kept(xs, keep)| ==> Kept(xs, keep)[j] < Kept(xs, keep)[l]
    ensures forall i :: 0 <= i < |xs| && keep(xs[i], i) ==> i in Kept(xs, keep)
  {
    if xs != [] {
      var n := |xs| - 1;
      var init := xs[..n];
      KeptSpec(init, keep);
      var idx0, idx := Kept(init, keep), Kept(xs, keep);
      assert idx == idx0 + (if keep(xs[n], n) then [n] else []);
      forall j | 0 <= j < |idx| ensures keep(xs[idx[j]], idx[j]) {
        if j < |idx0| {
          assert idx[j] == idx0[j] && xs[idx[j]] == init[idx0[j]];
        } else {
          assert idx[j] == n;
        }
      }
      forall i | 0 <= i < |xs| && keep(xs[i], i) ensures i in idx {
        if i < n {
          assert init[i] == xs[i];
        }
      }
    }
  }

  /** The calls issued: `batch(x, k)` for the item `x` kept k-th, in listing order. */
  function Issued<X, C>(xs: seq<X>, keep: (X, nat) -> bool, batch: (X, nat) -> seq<C>): seq<C> {
    if xs == [] then []
    else
      var n := |xs| - 1;
      var init := xs[..n];
      Issued(init, keep, batch) + (if keep(xs[n], n) then batch(xs[n], |Kept(init, keep)|) else [])
  }

  /** Extending the listing by one item extends the calls by that item's batch, if it is kept. */
  lemma IssuedStep<X, C>(xs: seq<X>, i: nat, keep: (X, nat) -> bool, batch: (X, nat) -> seq<C>)
    requires i < |xs|
    ensures var k := |Kept(xs[..i], keep)|;
      && |Kept(xs[..i + 1], keep)| == k + (if keep(xs[i], i) then 1 else 0)
      && Issued(xs[..i + 1], keep, batch) == Issued(xs[..i], keep, batch) + (if keep(xs[i], i) then batch(xs[i], k) else [])
  {
    assert xs[..i + 1][..i] == xs[..i];
  }

  /** With one-call batches, call j is the batch of the j-th kept item. */
  lemma {:induction false} IssuedSingles<X, C>(xs: seq<X>, keep: (X, nat) -> bool, batch: (X, nat) -> seq<C>)
    requires forall x, k :: |batch(x, k)| == 1
    ensures |Issued(xs, keep, batch)| == |Kept(xs, keep)|
    ensures forall j :: 0 <= j < |Kept(xs, keep)| ==> Issued(xs, keep, batch)[j] == batch(xs[Kept(xs, keep)[j]], j)[0]
  {
    if xs != [] {
      var n := |xs| - 1;
      var init := xs[..n];
      IssuedSingles(init, keep, batch);
      var idx0, calls0 := Kept(init, keep), Issued(init, keep, batch);
      var idx, calls := Kept(xs, keep), Issued(xs, keep, batch);
      assert calls == calls0 + (if keep(xs[n], n) then batch(xs[n], |idx0|) else []);
      assert idx == idx0 + (if keep(xs[n], n) then [n] else []);
      forall j | 0 <= j < |idx|
        ensures calls[j] == batch(xs[idx[j]], j)[0]
      {
        if j < |idx0| {
          assert xs[idx[j]] == init[idx0[j]];
        }
      }
    }
  }

  /** With two-call batches, calls 2j and 2j + 1 are the batch of the j-th kept item. */
  lemma {:induction false} IssuedPairs<X, C>(xs: seq<X>, keep: (X, nat) -> bool, batch: (X, nat) -> seq<C>)
    requires forall x, k :: |batch(x, k)| == 2
    ensures |Issued(xs, keep, batch)| == 2 * |Kept(xs, keep)|
    ensures forall j :: 0 <= j < |Kept(xs, keep)| ==>
      && Issued(xs, keep, batch)[2 * j] == batch(xs[Kept(xs, keep)[j]], j)[0]
      && Issued(xs, keep, batch)[2 * j + 1] == batch(xs[Kept(xs, keep)[j]], j)[1]
  {
    if xs != [] {
      var n := |xs| - 1;
      var init := xs[..n];
      IssuedPairs(init, keep, batch);
      var idx0, calls0 := Kept(init, keep), Issued(init, keep, batch);
      var idx, calls := Kept(xs, keep), Issued(xs, keep, batch);
      assert calls == calls0 + (if keep(xs[n], n) then batch(xs[n], |idx0|) else []);
      assert idx == idx0 + (if keep(xs[n], n) then [n] else []);
      forall j | 0 <= j < |idx|
        ensures calls[2 * j] == batch(xs[idx[j]], j)[0] && calls[2 * j + 1] == batch(xs[idx[j]], j)[1]
      {
        if j < |idx0| {
          assert xs[idx[j]] == init[idx0[j]];
        }
      }
    }
  }

  /** Nothing kept, nothing issued. */
  lemma {:induction false} NoneKeptNoneIssued<X, C>(xs: seq<X>, keep: (X, nat) -> bool, batch: (X, nat) -> seq<C>)
    requires forall i :: 0 <= i < |xs| ==> !keep(xs[i], i)
    ensures Issued(xs, keep, batch) == []
  {
    if xs != [] {
      NoneKeptNoneIssued(xs[..|xs| - 1], keep, batch);
    }
  }
}
