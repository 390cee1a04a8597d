/**
 What a context switch lets through. The store of the new context starts empty,
 but updates of the old one can still arrive on the event channel, queued before
 the switch or sent by an aborted task that was in the middle of a poll, and are
 applied like any other (src/app/mod.rs:99-124, src/app/state/mod.rs:2660-2697).
 These lemmas say which parts of the new snapshot, and of the lists published
 from it, can come from the old context, and when they stop to.
 */
module StaleUpdates {
  import opened BulletinRing
  import opened ClusterSnapshot
  import opened ClusterStores
  import opened Wrappers

  /** An update as received, and whether a task of the old store sent it. */
  datatype Received<D> = Received(stale: bool, update: ClusterUpdate<D>)

  function Updates<D>(log: seq<Received<D>>): seq<ClusterUpdate<D>> {
    if log == [] then [] else Updates(log[..|log| - 1]) + [log[|log| - 1].update]
  }

  /** What would have been received had nothing of the old context come through. */
  function Fresh<D>(log: seq<Received<D>>): seq<ClusterUpdate<D>> {
    if log == [] then []
    else Fresh(log[..|log| - 1]) + (if log[|log| - 1].stale then [] else [log[|log| - 1].update])
  }

  predicate About<D>(r: Received<D>, key: Key) {
    !r.update.BulletinsDelta? && KeyOf(r.update) == key
  }

  predicate Succeeds<D>(r: Received<D>) {
    !r.update.BulletinsDelta? && r.update.fetched.result.Success?
  }

  /** Position `k` is the last success about `key`. */
  ghost predicate IsLatest<D>(log: seq<Received<D>>, key: Key, k: int) {
    && 0 <= k < |log| && About(log[k], key) && Succeeds(log[k])
    && forall j :: k < j < |log| && About(log[j], key) ==> !Succeeds(log[j])
  }

  /** From position `k` on, nothing about `key` is of the old context. */
  ghost predicate FreshFrom<D>(log: seq<Received<D>>, key: Key, k: int) {
    forall j :: 0 <= k <= j < |log| && About(log[j], key) ==> !log[j].stale
  }

  /** No trace is left: nothing of the old context came, or a fresh success came after all of it. */
  ghost predicate Forgotten<D>(log: seq<Received<D>>, key: Key) {
    || FreshFrom(log, key, 0)
    || exists k :: 0 <= k < |log| && About(log[k], key) && Succeeds(log[k]) && FreshFrom(log, key, k)
  }

  // ----- The snapshot -----

  lemma OneMore<D>(log: seq<Received<D>>, r: Received<D>, key: Key)
    ensures Updates(log + [r]) == Updates(log) + [r.update]
    ensures Fresh(log + [r]) == Fresh(log) + (if r.stale then [] else [r.update])
    ensures StateAfter(Updates(log + [r]), key)
         == if About(r, key) then StateAfter(Updates(log), key).Applied(r.update.fetched)
            else StateAfter(Updates(log), key)
    ensures StateAfter(Fresh(log + [r]), key)
         == if About(r, key) && !r.stale then StateAfter(Fresh(log), key).Applied(r.update.fetched)
            else StateAfter(Fresh(log), key)
  {
    hide StateAfter, FetchesOf;
    assert (log + [r])[..|log + [r]| - 1] == log;
    StateAfterOne(Updates(log), r.update, key);
    StateAfterOne(Fresh(log), r.update, key);
    assert Fresh(log) + [] == Fresh(log);
  }

  /**
   What views show for a key is the data of the last success, so it comes from
   the old context if and only if that success does.
   */
  lemma {:induction false} LatestComesFrom<D>(log: seq<Received<D>>, key: Key)
    ensures forall k :: IsLatest(log, key, k) ==>
              StateAfter(Updates(log), key).Latest() == Some(log[k].update.fetched.result.value)
    ensures (forall k :: !IsLatest(log, key, k)) ==> StateAfter(Updates(log), key).Latest() == None
    decreases |log|
  {
    hide StateAfter;
    if log == [] {
      NothingYet(key, log);
    } else {
      var init, r := log[..|log| - 1], log[|log| - 1];
      assert log == init + [r];
      OneMore(init, r, key);
      LatestComesFrom(init, key);
      forall k | IsLatest(log, key, k)
        ensures if About(r, key) && Succeeds(r) then k == |log| - 1 else IsLatest(init, key, k)
      {
      }
      if About(r, key) && Succeeds(r) {
        assert IsLatest(log, key, |log| - 1);
      } else {
        forall k | IsLatest(init, key, k) ensures IsLatest(log, key, k) {
        }
      }
    }
  }

  lemma NothingYet<D>(key: Key, log: seq<Received<D>>)
    requires log == []
    ensures StateAfter(Updates(log), key) == Loading == StateAfter(Fresh(log), key)
  {
  }

  /** Once no trace is left, the state is that of a run in which nothing came through: data, timing and error. */
  lemma {:induction false} ForgottenMeansFresh<D>(log: seq<Received<D>>, key: Key)
    requires Forgotten(log, key)
    ensures StateAfter(Updates(log), key) == StateAfter(Fresh(log), key)
    decreases |log|
  {
    hide StateAfter;
    if log == [] {
      NothingYet(key, log);
    } else {
      var init, r := log[..|log| - 1], log[|log| - 1];
      assert log == init + [r];
      OneMore(init, r, key);
      if !(About(r, key) && Succeeds(r)) {
        ForgottenBefore(init, r, key);
        ForgottenMeansFresh(init, key);
      }
      assert FreshFrom(log, key, |log| - 1) || FreshFrom(log, key, 0);
    }
  }

  lemma ForgottenBefore<D>(init: seq<Received<D>>, r: Received<D>, key: Key)
    requires Forgotten(init + [r], key) && !(About(r, key) && Succeeds(r))
    ensures Forgotten(init, key) && (About(r, key) ==> !r.stale)
  {
    var log := init + [r];
    assert log[|init|] == r;
    if !FreshFrom(log, key, 0) {
      var k :| 0 <= k < |log| && About(log[k], key) && Succeeds(log[k]) && FreshFrom(log, key, k);
      assert k < |init| && init[k] == log[k];
      forall j | k <= j < |init| && About(init[j], key) ensures !init[j].stale {
        assert init[j] == log[j];
      }
      assert FreshFrom(init, key, k);
    } else {
      forall j | 0 <= j < |init| && About(init[j], key) ensures !init[j].stale {
        assert init[j] == log[j];
      }
    }
  }

  /** The first fresh success about a key wipes out what the old context left there. */
  lemma FreshSuccessForgets<D>(log: seq<Received<D>>, r: Received<D>, key: Key)
    requires About(r, key) && Succeeds(r) && !r.stale
    ensures Forgotten(log + [r], key)
  {
    assert (log + [r])[|log|] == r;
    assert FreshFrom(log + [r], key, |log|);
  }

  // ----- The published lists -----

  /** What is published after a log (the invariant `Published` of the store). */
  function Addresses<D>(ex: Extractors<D>, log: seq<ClusterUpdate<D>>): seq<string> {
    WantedAddresses(ex, StateAfter(log, Whole(ClusterNodes)), StateAfter(log, Whole(SystemDiagnostics)))
  }

  function Groups<D>(ex: Extractors<D>, log: seq<ClusterUpdate<D>>): seq<string> {
    WantedGroups(ex, StateAfter(log, Whole(RootPgStatus)))
  }

  /**
   The node addresses depend on two endpoints and the group ids on one. Once no
   trace is left there, the fetch tasks are told what they would have been told.
   */
  lemma PublishedListsAreFresh<D>(ex: Extractors<D>, log: seq<Received<D>>)
    ensures Forgotten(log, Whole(ClusterNodes)) && Forgotten(log, Whole(SystemDiagnostics)) ==>
              Addresses(ex, Updates(log)) == Addresses(ex, Fresh(log))
    ensures Forgotten(log, Whole(RootPgStatus)) ==> Groups(ex, Updates(log)) == Groups(ex, Fresh(log))
  {
    hide StateAfter, Forgotten, WantedAddresses, WantedGroups;
    if Forgotten(log, Whole(ClusterNodes)) && Forgotten(log, Whole(SystemDiagnostics)) {
      ForgottenMeansFresh(log, Whole(ClusterNodes));
      ForgottenMeansFresh(log, Whole(SystemDiagnostics));
    }
    if Forgotten(log, Whole(RootPgStatus)) {
      ForgottenMeansFresh(log, Whole(RootPgStatus));
    }
  }

  /**
   Until then they can be wrong: as long as every fresh fetch of the roster
   fails, one roster of the old context is what the prober is sent to.
   */
  lemma OldRosterStays<D>(ex: Extractors<D>, log: seq<Received<D>>, k: nat)
    requires IsLatest(log, Whole(ClusterNodes), k) && log[k].stale
    requires ex.nodeRows(log[k].update.fetched.result.value) != []
    ensures Addresses(ex, Updates(log)) == ex.nodeRows(log[k].update.fetched.result.value)
  {
    hide StateAfter;
    LatestComesFrom(log, Whole(ClusterNodes));
  }

  /**
   Without a last good roster that has rows, the prober is sent where the last
   good system diagnostics says, and nowhere before the first: a standalone node,
   which has no roster, gets its address probed.
   */
  lemma DiagnosticsStandIn<D>(ex: Extractors<D>, log: seq<Received<D>>)
    requires forall k :: IsLatest(log, Whole(ClusterNodes), k) ==>
               ex.nodeRows(log[k].update.fetched.result.value) == []
    ensures forall k :: IsLatest(log, Whole(SystemDiagnostics), k) ==>
              Addresses(ex, Updates(log)) == ex.diagNodes(log[k].update.fetched.result.value)
    ensures (forall k :: !IsLatest(log, Whole(SystemDiagnostics), k)) ==> Addresses(ex, Updates(log)) == []
  {
    hide StateAfter;
    LatestComesFrom(log, Whole(ClusterNodes));
    LatestComesFrom(log, Whole(SystemDiagnostics));
  }

  /** The group ids are those of the last good root status, none before the first. */
  lemma GroupsFollowStatus<D>(ex: Extractors<D>, log: seq<Received<D>>)
    ensures forall k :: IsLatest(log, Whole(RootPgStatus), k) ==>
              Groups(ex, Updates(log)) == ex.pgIds(log[k].update.fetched.result.value)
    ensures (forall k :: !IsLatest(log, Whole(RootPgStatus), k)) ==> Groups(ex, Updates(log)) == []
  {
    hide StateAfter;
    LatestComesFrom(log, Whole(RootPgStatus));
  }

  // ----- The ring -----

  /** Bulletins of the old context leave the ring only by being pushed out. */
  function Arrived<D>(log: seq<Received<D>>): seq<(bool, Bulletin)> {
    if log == [] then []
    else
      var r := log[|log| - 1];
      Arrived(log[..|log| - 1])
      + (if r.update.BulletinsDelta? && r.update.delta.result.Success? then Marked(r.stale, r.update.delta.result.value)
         else [])
  }

  function Marked(stale: bool, bs: seq<Bulletin>): (ms: seq<(bool, Bulletin)>)
    ensures |ms| == |bs| && forall i :: 0 <= i < |bs| ==> ms[i] == (stale, bs[i])
  {
    seq(|bs|, i requires 0 <= i < |bs| => (stale, bs[i]))
  }

  function Unmarked(ms: seq<(bool, Bulletin)>): (bs: seq<Bulletin>)
    ensures |bs| == |ms| && forall i :: 0 <= i < |ms| ==> bs[i] == ms[i].1
  {
    seq(|ms|, i requires 0 <= i < |ms| => ms[i].1)
  }

  lemma UnmarkedJoins(a: seq<(bool, Bulletin)>, stale: bool, bs: seq<Bulletin>)
    ensures Unmarked(a + Marked(stale, bs)) == Unmarked(a) + bs
    ensures Unmarked(a + []) == Unmarked(a)
  {
  }

  lemma MergedOne<D>(us: seq<ClusterUpdate<D>>, u: ClusterUpdate<D>)
    ensures Merged(Deltas(us + [u]))
         == if u.BulletinsDelta? && u.delta.result.Success? then Merged(Deltas(us)) + u.delta.result.value
            else Merged(Deltas(us))
  {
    DeltasOne(us, u);
    if u.BulletinsDelta? {
      var ds := Deltas(us);
      assert (ds + [u.delta])[..|ds + [u.delta]| - 1] == ds;
    }
  }

  lemma {:induction false} MergedAreArrivals<D>(log: seq<Received<D>>)
    ensures Merged(Deltas(Updates(log))) == Unmarked(Arrived(log))
    decreases |log|
  {
    if log != [] {
      hide Merged, Deltas, Unmarked, Marked;
      var init, r := log[..|log| - 1], log[|log| - 1];
      MergedAreArrivals(init);
      MergedOne(Updates(init), r.update);
      if r.update.BulletinsDelta? && r.update.delta.result.Success? {
        UnmarkedJoins(Arrived(init), r.stale, r.update.delta.result.value);
      } else {
        UnmarkedJoins(Arrived(init), false, []);
      }
    }
  }

  /** The ring shows the last arrivals, so a bulletin of the old context stays until enough newer ones have come. */
  lemma RingShowsArrivals<D>(log: seq<Received<D>>, capacity: nat)
    ensures LastN(Merged(Deltas(Updates(log))), capacity) == Unmarked(LastN(Arrived(log), capacity))
  {
    hide Merged, Deltas, Arrived, Updates;
    MergedAreArrivals(log);
  }
}
