/** The limiter as the service keeps it: maps of counters, and per user a slice of times that
    each submission compacts in place. */
module Limiter {
  import opened Admission

  /** Keep the recent times at the front of the buffer they are read from. */
  method Compact(a: array<int>, n: nat, cutoff: int) returns (k: nat)
    requires n <= a.Length
    modifies a
    ensures k <= n && a[..k] == Recent(old(a[..n]), cutoff)
  {
    ghost var was := a[..n];
    k := 0;
    var i := 0;
    while i < n
      invariant 0 <= k <= i <= n
      invariant a[..k] == Recent(was[..i], cutoff)
      invariant forall j :: i <= j < n ==> a[j] == was[j]
    {
      var submitted := a[i];
      assert was[..i + 1][..i] == was[..i];
      if submitted > cutoff {
        a[k] := submitted;
        k := k + 1;
      }
      i := i + 1;
    }
    assert was[..n] == was;
  }

  /** A slice: the first `len` places of a buffer. */
  datatype Slice = Slice(buffer: array<int>, len: nat)

  /** `append`: in the buffer when there is room after the slice, else in a larger copy. */
  method Append(s: Slice, x: int) returns (r: Slice)
    requires s.len <= s.buffer.Length
    modifies s.buffer
    ensures r.len == s.len + 1 <= r.buffer.Length && (r.buffer == s.buffer || fresh(r.buffer))
    ensures r.buffer[..r.len] == old(s.buffer[..s.len]) + [x]
  {
    var buffer := s.buffer;
    if s.len == buffer.Length {
      var was := s.buffer[..];
      buffer := new int[2 * |was| + 1](i => if 0 <= i < |was| then was[i] else 0);
      assert buffer[..s.len] == was;
    }
    buffer[s.len] := x;
    r := Slice(buffer, s.len + 1);
  }

  /** The times of all users, each in a slice with a buffer of its own. */
  class TimeTable {
    var slices: map<nat, Slice>
    ghost var buffers: set<array<int>>

    ghost predicate Valid()
      reads this
    {
      && (forall uid <- slices :: slices[uid].buffer in buffers && slices[uid].len <= slices[uid].buffer.Length)
      && (forall u, v :: u in slices && v in slices && u != v ==> slices[u].buffer != slices[v].buffer)
    }

    ghost function Times(): map<nat, seq<int>>
      requires Valid()
      reads this, buffers
    {
      map uid <- slices :: slices[uid].buffer[..slices[uid].len]
    }

    constructor ()
      ensures Valid() && Times() == map[] && buffers == {}
    {
      slices, buffers := map[], {};
    }

    method NewSlice(uid: nat)
      requires Valid() && uid !in slices
      modifies this
      ensures Valid() && uid in slices && fresh(buffers - old(buffers))
      ensures Times() == old(Times())[uid := []]
    {
      ghost var before := Times();
      var buffer := new int[0];
      slices, buffers := slices[uid := Slice(buffer, 0)], buffers + {buffer};
      forall u <- before ensures Times()[u] == before[u] {
        assert u != uid;
      }
      assert Times()[uid] == [];
    }

    /** Keep the recent times of a user in place: the slice that is read and the slice that is
        written share one buffer, the one that the map holds. */
    method CompactTimes(uid: nat, cutoff: int) returns (k: nat)
      requires Valid() && uid in slices
      modifies this`slices, slices[uid].buffer
      ensures Valid() && uid in slices && slices[uid].buffer == old(slices[uid].buffer)
      ensures Times() == old(Times())[uid := Recent(old(Times())[uid], cutoff)] && k == |Times()[uid]|
    {
      var s := slices[uid];
      k := Compact(s.buffer, s.len, cutoff);
      slices := slices[uid := Slice(s.buffer, k)];
    }

    /** The same for any user; a missing slice is an empty one. */
    method KeepRecent(uid: nat, cutoff: int) returns (k: nat)
      requires Valid()
      modifies this, buffers
      ensures Valid() && uid in slices && slices[uid].buffer in buffers && fresh(buffers - old(buffers))
      ensures var kept := Recent(if uid in old(Times()) then old(Times())[uid] else [], cutoff);
        Times() == old(Times())[uid := kept] && k == |kept|
    {
      if uid !in slices {
        NewSlice(uid);
      }
      k := CompactTimes(uid, cutoff);
    }

    /** Append a time to the user's slice. */
    method AddTime(uid: nat, now: int)
      requires Valid() && uid in slices
      modifies this, slices[uid].buffer
      ensures Valid() && fresh(buffers - old(buffers))
      ensures Times() == old(Times())[uid := old(Times())[uid] + [now]]
    {
      var s := Append(slices[uid], now);
      slices, buffers := slices[uid := s], buffers + {s.buffer};
    }

    /** One submission: the recent times stay, and `now` joins them if the limit and the other
        counters leave room. */
    method Submit(uid: nat, now: int, limit: int, room: bool) returns (ok: bool)
      requires Valid()
      modifies this, buffers
      ensures Valid() && fresh(buffers - old(buffers))
      ensures var kept := Recent(if uid in old(Times()) then old(Times())[uid] else [], now - MINUTE);
        && ok == (|kept| < limit && room)
        && Times() == old(Times())[uid := if ok then kept + [now] else kept]
    {
      var k := KeepRecent(uid, now - MINUTE);
      ok := k < limit && room;
      if ok {
        AddTime(uid, now);
      }
    }
  }

  class Limiter {
    const limits: Limits
    const table: TimeTable
    var submitting: map<nat, int>
    var submittingTotal: int
    var watchersByUid: map<nat, int>
    var watchersByRequest: map<string, int>

    ghost function Contents(): Counters
      requires table.Valid()
      reads this, table, table.buffers
    {
      Counters(table.Times(), submitting, submittingTotal, watchersByUid, watchersByRequest)
    }

    constructor (limits: Limits)
      ensures fresh(table) && table.Valid() && table.buffers == {}
      ensures this.limits == limits && Contents() == Counters(map[], map[], 0, map[], map[])
    {
      this.limits := limits;
      table := new TimeTable();
      submitting, submittingTotal, watchersByUid, watchersByRequest := map[], 0, map[], map[];
    }

    method AcquireSubmission(uid: nat, now: int) returns (ok: bool)
      requires table.Valid()
      modifies this, table, table.buffers
      ensures table.Valid() && fresh(table.buffers - old(table.buffers))
      ensures ok == Admits(limits, old(Contents()), uid, now)
      ensures Contents() == Admission.AcquireSubmission(limits, old(Contents()), uid, now)
    {
      ghost var before := Contents();
      var room := Count(submitting, uid) < limits.concurrentPerUid && submittingTotal < limits.concurrentTotal;
      ok := table.Submit(uid, now, limits.perMinute, room);
      if ok {
        submitting := submitting[uid := Count(submitting, uid) + 1];
        submittingTotal := submittingTotal + 1;
      }
      assert ok == Admits(limits, before, uid, now);
      assert table.Times() == Admission.AcquireSubmission(limits, before, uid, now).times;
    }

    method ReleaseSubmission(uid: nat)
      requires table.Valid()
      modifies this`submitting, this`submittingTotal
      ensures Contents() == Admission.ReleaseSubmission(old(Contents()), uid)
      ensures submittingTotal == old(submittingTotal) - 1
      ensures Count(submitting, uid) == Count(old(submitting), uid) - 1 && (uid in submitting ==> submitting[uid] != 0)
      ensures submitting - {uid} == old(submitting) - {uid}
    {
      submitting := Decrement(submitting, uid);
      submittingTotal := submittingTotal - 1;
    }

    method AcquireWatcher(uid: nat, id: string) returns (ok: bool)
      requires table.Valid()
      modifies this`watchersByUid, this`watchersByRequest
      ensures ok == AdmitsWatcher(limits, old(Contents()), uid, id)
      ensures Contents() == Admission.AcquireWatcher(limits, old(Contents()), uid, id)
      ensures ok <==>
        Count(old(watchersByUid), uid) < limits.watchersPerUid
        && Count(old(watchersByRequest), id) < limits.watchersPerRequest
      ensures var n := if ok then 1 else 0;
        && Count(watchersByUid, uid) == Count(old(watchersByUid), uid) + n
        && Count(watchersByRequest, id) == Count(old(watchersByRequest), id) + n
      ensures watchersByUid - {uid} == old(watchersByUid) - {uid}
      ensures watchersByRequest - {id} == old(watchersByRequest) - {id}
    {
      if Count(watchersByUid, uid) >= limits.watchersPerUid
         || Count(watchersByRequest, id) >= limits.watchersPerRequest {
        return false;
      }
      watchersByUid := watchersByUid[uid := Count(watchersByUid, uid) + 1];
      watchersByRequest := watchersByRequest[id := Count(watchersByRequest, id) + 1];
      ok := true;
    }

    method ReleaseWatcher(uid: nat, id: string)
      requires table.Valid()
      modifies this`watchersByUid, this`watchersByRequest
      ensures Contents() == Admission.ReleaseWatcher(old(Contents()), uid, id)
      ensures Count(watchersByUid, uid) == Count(old(watchersByUid), uid) - 1
      ensures Count(watchersByRequest, id) == Count(old(watchersByRequest), id) - 1
      ensures uid in watchersByUid ==> watchersByUid[uid] != 0
      ensures id in watchersByRequest ==> watchersByRequest[id] != 0
      ensures watchersByUid - {uid} == old(watchersByUid) - {uid}
      ensures watchersByRequest - {id} == old(watchersByRequest) - {id}
    {
      watchersByUid := Decrement(watchersByUid, uid);
      watchersByRequest := Decrement(watchersByRequest, id);
    }
  }

  /** `m[k]--`, then `delete(m, k)` when nothing is left. */
  method Decrement<K(==)>(m: map<K, int>, k: K) returns (r: map<K, int>)
    ensures r == Less(m, k)
    ensures Count(r, k) == Count(m, k) - 1 && (k in r ==> r[k] != 0) && r - {k} == m - {k}
  {
    r := m[k := Count(m, k) - 1];
    if r[k] == 0 {
      r := r - {k};
      assert r == m - {k};
    }
  }
}
