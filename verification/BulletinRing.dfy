/** The capacity-bounded bulletin buffer the UI task merges batches into (src/cluster/snapshot.rs:106-156). */
module BulletinRing {
  import opened Wrappers

  datatype Bulletin = Bulletin(id: int, message: string)

  /** The last `n` elements, or all when there are fewer. */
  function LastN<T>(xs: seq<T>, n: nat): seq<T> {
    if |xs| <= n then xs else xs[|xs| - n..]
  }

  /** The largest id seen so far, once there is one. */
  function MaxId(last: Option<int>, batch: seq<Bulletin>): Option<int> {
    if batch == [] then last
    else
      var m, id := MaxId(last, batch[..|batch| - 1]), batch[|batch| - 1].id;
      if m.None? || id > m.value then Some(id) else m
  }

  /** Trimming after every element or once at the end leaves the same buffer. */
  lemma LastNAppend<T>(xs: seq<T>, ys: seq<T>, n: nat)
    ensures LastN(LastN(xs, n) + ys, n) == LastN(xs + ys, n)
  {
    if |xs| > n {
      assert LastN(xs, n) + ys == (xs + ys)[|xs| - n..];
      if |ys| > 0 {
        assert (xs + ys)[|xs| - n..][|ys|..] == (xs + ys)[|xs + ys| - n..];
      }
    }
  }

  /** One step of the trimming loop, and its end. */
  lemma TrimStep<T>(xs: seq<T>, n: nat)
    ensures |xs| > n ==> LastN(xs[1..], n) == LastN(xs, n)
    ensures |xs| <= n ==> LastN(xs, n) == xs
  {
  }

  lemma {:induction false} MaxIdConcat(last: Option<int>, xs: seq<Bulletin>, ys: seq<Bulletin>)
    ensures MaxId(last, xs + ys) == MaxId(MaxId(last, xs), ys)
  {
    if ys == [] {
      assert xs + ys == xs;
    } else {
      assert (xs + ys)[..|xs + ys| - 1] == xs + ys[..|ys| - 1];
      MaxIdConcat(last, xs, ys[..|ys| - 1]);
    }
  }

  /** `MaxId` is the maximum: attained, and an upper bound. */
  lemma {:induction false} MaxIdIsMaximum(last: Option<int>, xs: seq<Bulletin>)
    ensures MaxId(last, xs).None? <==> last.None? && xs == []
    ensures MaxId(last, xs).Some? ==>
              && (forall b :: b in xs ==> b.id <= MaxId(last, xs).value)
              && (last.Some? ==> last.value <= MaxId(last, xs).value)
              && (MaxId(last, xs) == last || exists b :: b in xs && b.id == MaxId(last, xs).value)
  {
    if xs != [] {
      var init, b := xs[..|xs| - 1], xs[|xs| - 1];
      MaxIdIsMaximum(last, init);
      forall c | c in xs ensures c in init || c == b {
        var k :| 0 <= k < |xs| && xs[k] == c;
        if k < |init| {
          assert init[k] == c;
        }
      }
      assert forall c :: c in init ==> c in xs;
      assert b in xs;
    }
  }

  class Ring<Meta> {
    var buf: seq<Bulletin>
    const capacity: nat
    var lastId: Option<int>
    var meta: Option<Meta>
    var lastError: Option<string>

    ghost predicate Valid()
      reads this
    {
      |buf| <= capacity
    }

    constructor (capacity: nat)
      ensures Valid() && this.capacity == capacity
      ensures buf == [] && lastId == None && meta == None && lastError == None
    {
      this.capacity := capacity;
      buf, lastId, meta, lastError := [], None, None, None;
    }

    /** `merge`: pushes each bulletin in turn, trimming from the front as it goes. */
    method Merge(batch: seq<Bulletin>)
      requires Valid()
      modifies this`buf, this`lastId
      ensures Valid()
      ensures buf == LastN(old(buf) + batch, capacity)
      ensures lastId == MaxId(old(lastId), batch)
    {
      hide LastN;
      TrimStep(buf, capacity);
      assert old(buf) + [] == old(buf);
      for i := 0 to |batch|
        invariant Valid()
        invariant buf == LastN(old(buf) + batch[..i], capacity)
        invariant lastId == MaxId(old(lastId), batch[..i])
      {
        ghost var seen := old(buf) + batch[..i];
        assert batch[..i + 1][..i] == batch[..i];
        assert old(buf) + batch[..i + 1] == seen + [batch[i]];
        LastNAppend(seen, [batch[i]], capacity);
        if lastId.None? || batch[i].id > lastId.value {
          lastId := Some(batch[i].id);
        }
        buf := buf + [batch[i]];
        ghost var trimmed := LastN(seen + [batch[i]], capacity);
        assert LastN(buf, capacity) == trimmed;
        TrimStep(buf, capacity);
        ghost var newest := lastId;
        while |buf| > capacity
          invariant lastId == newest
          invariant LastN(buf, capacity) == trimmed
          invariant |buf| <= capacity ==> buf == trimmed
        {
          TrimStep(buf, capacity);
          buf := buf[1..];
          TrimStep(buf, capacity);
        }
      }
      assert batch[..|batch|] == batch;
    }
  }
}
