/** Admission control: the per-user submission rate over a sliding minute, and the counters
    of submissions and watchers in progress. */
module Admission {

  const MINUTE: int := 60_000_000_000

  datatype Limits = Limits(
    perMinute: int, concurrentPerUid: int, concurrentTotal: int, watchersPerUid: int, watchersPerRequest: int)

  /** The service's maps; a missing key counts as zero. */
  datatype Counters = Counters(
    times: map<nat, seq<int>>,
    submitting: map<nat, int>,
    submittingTotal: int,
    watchersByUid: map<nat, int>,
    watchersByRequest: map<string, int>)

  function Count<K>(m: map<K, int>, k: K): int {
    if k in m then m[k] else 0
  }

  function TimesOf(c: Counters, uid: nat): seq<int> {
    if uid in c.times then c.times[uid] else []
  }

  /** The times after the cutoff, in their order. */
  function Recent(times: seq<int>, cutoff: int): seq<int> {
    if times == [] then []
    else
      var last := times[|times| - 1];
      Recent(times[..|times| - 1], cutoff) + (if last > cutoff then [last] else [])
  }

  predicate Admits(l: Limits, c: Counters, uid: nat, now: int) {
    && |Recent(TimesOf(c, uid), now - MINUTE)| < l.perMinute
    && Count(c.submitting, uid) < l.concurrentPerUid
    && c.submittingTotal < l.concurrentTotal
  }

  function AcquireSubmission(l: Limits, c: Counters, uid: nat, now: int): Counters {
    var kept := Recent(TimesOf(c, uid), now - MINUTE);
    if !Admits(l, c, uid, now) then c.(times := c.times[uid := kept])
    else
      c.(times := c.times[uid := kept + [now]],
         submitting := c.submitting[uid := Count(c.submitting, uid) + 1],
         submittingTotal := c.submittingTotal + 1)
  }

  /** Decrement a counter and drop its key at zero. */
  function Less<K>(m: map<K, int>, k: K): map<K, int> {
    if Count(m, k) - 1 == 0 then m - {k} else m[k := Count(m, k) - 1]
  }

  function ReleaseSubmission(c: Counters, uid: nat): Counters {
    c.(submitting := Less(c.submitting, uid), submittingTotal := c.submittingTotal - 1)
  }

  predicate AdmitsWatcher(l: Limits, c: Counters, uid: nat, id: string) {
    Count(c.watchersByUid, uid) < l.watchersPerUid && Count(c.watchersByRequest, id) < l.watchersPerRequest
  }

  function AcquireWatcher(l: Limits, c: Counters, uid: nat, id: string): Counters {
    if !AdmitsWatcher(l, c, uid, id) then c
    else
      c.(watchersByUid := c.watchersByUid[uid := Count(c.watchersByUid, uid) + 1],
         watchersByRequest := c.watchersByRequest[id := Count(c.watchersByRequest, id) + 1])
  }

  function ReleaseWatcher(c: Counters, uid: nat, id: string): Counters {
    c.(watchersByUid := Less(c.watchersByUid, uid), watchersByRequest := Less(c.watchersByRequest, id))
  }

  // ---------- runs ----------

  datatype Call =
    | Submit(uid: nat, now: int)
    | EndSubmit(uid: nat)
    | StartWatch(uid: nat, id: string)
    | EndWatch(k: nat)

  /** The counters, and what they are meant to count: the submissions and watchers in
      progress, the times of all admissions, and the latest clock reading. */
  datatype World = World(
    counters: Counters,
    submissions: multiset<nat>,
    watchers: seq<(nat, string)>,
    accepted: map<nat, seq<int>>,
    clock: int)

  function AcceptedOf(w: World, uid: nat): seq<int> {
    if uid in w.accepted then w.accepted[uid] else []
  }

  function Drop<T>(s: seq<T>, k: nat): seq<T>
    requires k < |s|
  {
    s[..k] + s[k + 1..]
  }

  /** One call; releases are paired with what they release, and the clock never runs back. */
  function Next(l: Limits, w: World, call: Call): World {
    match call
    case Submit(uid, now) =>
      if now < w.clock then w else
      var w' := w.(counters := AcquireSubmission(l, w.counters, uid, now), clock := now);
      if Admits(l, w.counters, uid, now) then
        w'.(submissions := w.submissions + multiset{uid}, accepted := w.accepted[uid := AcceptedOf(w, uid) + [now]])
      else w'
    case EndSubmit(uid) =>
      if uid !in w.submissions then w else
      w.(counters := ReleaseSubmission(w.counters, uid), submissions := w.submissions - multiset{uid})
    case StartWatch(uid, id) =>
      var w' := w.(counters := AcquireWatcher(l, w.counters, uid, id));
      if AdmitsWatcher(l, w.counters, uid, id) then w'.(watchers := w.watchers + [(uid, id)]) else w'
    case EndWatch(k) =>
      if k >= |w.watchers| then w else
      w.(counters := ReleaseWatcher(w.counters, w.watchers[k].0, w.watchers[k].1), watchers := Drop(w.watchers, k))
  }

  function Run(l: Limits, start: int, calls: seq<Call>): World {
    if calls == [] then
      World(Counters(map[], map[], 0, map[], map[]), multiset{}, [], map[], start)
    else Next(l, Run(l, start, calls[..|calls| - 1]), calls[|calls| - 1])
  }

  // ---------- counters ----------

  function Bound(limit: int): int {
    if limit < 0 then 0 else limit
  }

  /** A map that holds exactly the positive multiplicities of a multiset, all within a limit. */
  ghost predicate Counts<K(!new)>(m: map<K, int>, live: multiset<K>, limit: int) {
    forall k :: (k in m <==> k in live) && (k in m ==> m[k] == live[k] <= Bound(limit))
  }

  lemma CountsMore<K(!new)>(m: map<K, int>, live: multiset<K>, limit: int, k: K)
    requires Counts(m, live, limit) && Count(m, k) < limit
    ensures Counts(m[k := Count(m, k) + 1], live + multiset{k}, limit)
  {
    assert k !in m ==> k !in live;
  }

  lemma CountsLess<K(!new)>(m: map<K, int>, live: multiset<K>, limit: int, k: K)
    requires Counts(m, live, limit) && k in live
    ensures Counts(Less(m, k), live - multiset{k}, limit)
  {}

  /** The sum of the values of a map. */
  ghost function Sum<K>(m: map<K, int>): int
    decreases |m|
  {
    if |m| == 0 then 0 else
    var k :| k in m;
    assert (m - {k}).Keys == m.Keys - {k};
    m[k] + Sum(m - {k})
  }

  lemma {:induction false} SumIsSize<K(!new)>(m: map<K, int>, live: multiset<K>, limit: int)
    requires Counts(m, live, limit)
    ensures Sum(m) == |live|
    decreases |m|
  {
    if |m| == 0 {
      assert forall k :: k !in m;
      assert live == multiset{};
    } else {
      var k :| k in m && Sum(m) == m[k] + Sum(m - {k});
      assert (m - {k}).Keys == m.Keys - {k};
      SumIsSize(m - {k}, live[k := 0], limit);
      SizeWithout(live, k);
    }
  }

  lemma SizeWithout<K>(live: multiset<K>, k: K)
    ensures |live| == |live[k := 0]| + live[k]
  {
    var all: multiset<K> := multiset{}[k := live[k]];
    assert live == live[k := 0] + all;
  }

  /** The users, and the requests, of the live watchers. */
  function Users(w: seq<(nat, string)>): seq<nat> {
    seq(|w|, k requires 0 <= k < |w| => w[k].0)
  }

  function Requests(w: seq<(nat, string)>): seq<string> {
    seq(|w|, k requires 0 <= k < |w| => w[k].1)
  }

  lemma Removed<K>(s: seq<K>, k: nat)
    requires k < |s|
    ensures s[k] in multiset(s) && multiset(Drop(s, k)) == multiset(s) - multiset{s[k]}
  {
    assert s == s[..k] + [s[k]] + s[k + 1..];
  }

  // ---------- the sliding minute ----------

  predicate Sorted(t: seq<int>) {
    forall i, j :: 0 <= i <= j < |t| ==> t[i] <= t[j]
  }

  /** Any admission is a minute or more after those `limit` places or more before it. */
  predicate Spaced(t: seq<int>, limit: int) {
    limit > 0 && forall i, k :: 0 <= i < |t| && i + limit <= k < |t| ==> t[i] <= t[k] - MINUTE
  }

  /** How many of the times lie in the window (end - 1 minute, end]. */
  function InWindow(t: seq<int>, end: int): nat {
    if t == [] then 0
    else InWindow(t[..|t| - 1], end) + (if end - MINUTE < t[|t| - 1] <= end then 1 else 0)
  }

  /** The places of the times in the minute, 60 000 000 000 nanoseconds, up to `end`. */
  function Places(t: seq<int>, end: int): set<nat> {
    set k | 0 <= k < |t| && end - 60_000_000_000 < t[k] <= end
  }

  lemma {:induction false} WindowCounts(t: seq<int>, end: int)
    ensures InWindow(t, end) == |Places(t, end)|
  {
    if t == [] {
      assert Places(t, end) == {};
    } else {
      var n := |t| - 1;
      WindowCounts(t[..n], end);
      var last := if end - 60_000_000_000 < t[n] <= end then {n} else {};
      assert Places(t, end) == Places(t[..n], end) + last;
    }
  }

  lemma {:induction false} WindowSplit(t: seq<int>, end: int, k: nat)
    requires k <= |t|
    ensures InWindow(t, end) <= InWindow(t[..k], end) + (|t| - k)
  {
    if k < |t| {
      WindowSplit(t[..|t| - 1], end, k);
      assert t[..|t| - 1][..k] == t[..k];
    } else {
      assert t[..k] == t;
    }
  }

  lemma {:induction false} WindowEmpty(t: seq<int>, end: int)
    requires forall k :: 0 <= k < |t| ==> t[k] <= end - MINUTE
    ensures InWindow(t, end) == 0
  {
    if t != [] {
      WindowEmpty(t[..|t| - 1], end);
    }
  }

  /** Spaced times fill no window beyond the limit. */
  lemma {:induction false} SpacedFitsWindows(t: seq<int>, limit: int, end: int)
    requires Sorted(t) && Spaced(t, limit)
    ensures InWindow(t, end) <= limit
  {
    var n := |t| - 1;
    if n < limit {
      assert t[..0] == [];
      WindowSplit(t, end, 0);
    } else if t[n] > end {
      SpacedFitsWindows(t[..n], limit, end);
    } else {
      var k := n - limit + 1;
      assert t[n - limit] <= t[n] - MINUTE;
      WindowEmpty(t[..k], end);
      WindowSplit(t, end, k);
    }
  }

  lemma {:induction false} RecentIsSuffix(t: seq<int>, cutoff: int, d: nat)
    requires d <= |t|
    requires forall i :: 0 <= i < d ==> t[i] <= cutoff
    requires forall i :: d <= i < |t| ==> t[i] > cutoff
    ensures Recent(t, cutoff) == t[d..]
  {
    var n := |t| - 1;
    if d <= n {
      RecentIsSuffix(t[..n], cutoff, d);
      assert t[d..] == t[..n][d..] + [t[n]];
    } else if t != [] {
      RecentIsSuffix(t[..n], cutoff, n);
    }
  }

  /** In sorted times the recent ones are a suffix. */
  lemma FirstRecent(t: seq<int>, cutoff: int) returns (d: nat)
    requires Sorted(t)
    ensures d <= |t|
    ensures forall i :: 0 <= i < d ==> t[i] <= cutoff
    ensures forall i :: d <= i < |t| ==> t[i] > cutoff
  {
    d := 0;
    while d < |t| && t[d] <= cutoff
      invariant d <= |t| && forall i :: 0 <= i < d ==> t[i] <= cutoff
    {
      d := d + 1;
    }
  }

  /** The stored times are the accepted ones without some that are a minute old. */
  predicate Remembers(accepted: seq<int>, times: seq<int>, clock: int) {
    && |times| <= |accepted|
    && times == accepted[|accepted| - |times|..]
    && (forall i :: 0 <= i < |accepted| - |times| ==> accepted[i] <= clock - MINUTE)
    && (forall i :: 0 <= i < |accepted| ==> accepted[i] <= clock)
  }

  lemma CompactionRemembers(accepted: seq<int>, times: seq<int>, clock: int, now: int)
    requires Sorted(accepted) && Remembers(accepted, times, clock) && clock <= now
    ensures var kept := Recent(times, now - MINUTE);
      && Remembers(accepted, kept, now)
      && (forall i :: |accepted| - |kept| <= i < |accepted| ==> accepted[i] > now - MINUTE)
  {
    var d := FirstRecent(times, now - MINUTE);
    RecentIsSuffix(times, now - MINUTE, d);
    var g := |accepted| - |times|;
    assert times[d..] == accepted[g + d..];
    forall i | 0 <= i < g + d ensures accepted[i] <= now - MINUTE {
      if i >= g {
        assert accepted[i] == times[i - g];
      }
    }
  }

  lemma SortedGrows(t: seq<int>, now: int)
    requires Sorted(t) && forall i :: 0 <= i < |t| ==> t[i] <= now
    ensures Sorted(t + [now])
  {}

  lemma SpacedGrows(t: seq<int>, now: int, limit: int)
    requires Sorted(t) && Spaced(t, limit) && (|t| >= limit ==> t[|t| - limit] <= now - MINUTE)
    ensures Spaced(t + [now], limit)
  {}

  lemma RemembersGrows(accepted: seq<int>, times: seq<int>, now: int)
    requires Remembers(accepted, times, now)
    ensures Remembers(accepted + [now], times + [now], now)
  {
    var n := |accepted| - |times|;
    assert (accepted + [now])[n..] == accepted[n..] + [now];
  }

  lemma AdmissionSpaces(accepted: seq<int>, times: seq<int>, clock: int, now: int, limit: int)
    requires Sorted(accepted) && Remembers(accepted, times, clock) && clock <= now
    requires Spaced(accepted, limit) && |Recent(times, now - MINUTE)| < limit
    ensures Sorted(accepted + [now]) && Spaced(accepted + [now], limit)
    ensures Remembers(accepted + [now], Recent(times, now - MINUTE) + [now], now)
  {
    CompactionRemembers(accepted, times, clock, now);
    SortedGrows(accepted, now);
    SpacedGrows(accepted, now, limit);
    RemembersGrows(accepted, Recent(times, now - MINUTE), now);
  }

  // ---------- all runs ----------

  ghost predicate CountersOk(l: Limits, w: World) {
    && Counts(w.counters.submitting, w.submissions, l.concurrentPerUid)
    && w.counters.submittingTotal == |w.submissions| <= Bound(l.concurrentTotal)
    && Counts(w.counters.watchersByUid, multiset(Users(w.watchers)), l.watchersPerUid)
    && Counts(w.counters.watchersByRequest, multiset(Requests(w.watchers)), l.watchersPerRequest)
  }

  ghost predicate TimesOk(l: Limits, accepted: seq<int>, times: seq<int>, clock: int) {
    && Sorted(accepted) && Remembers(accepted, times, clock)
    && (if l.perMinute > 0 then Spaced(accepted, l.perMinute) else accepted == [])
  }

  ghost predicate RateOk(l: Limits, w: World, uid: nat) {
    TimesOk(l, AcceptedOf(w, uid), TimesOf(w.counters, uid), w.clock)
  }

  lemma SubmissionCounts(l: Limits, w: World, call: Call)
    requires CountersOk(l, w) && (call.Submit? || call.EndSubmit?)
    ensures CountersOk(l, Next(l, w, call))
  {
    if call.Submit? && Admits(l, w.counters, call.uid, call.now) {
      CountsMore(w.counters.submitting, w.submissions, l.concurrentPerUid, call.uid);
    } else if call.EndSubmit? && call.uid in w.submissions {
      CountsLess(w.counters.submitting, w.submissions, l.concurrentPerUid, call.uid);
    }
  }

  lemma WatcherAdds(l: Limits, w: World, uid: nat, id: string)
    requires CountersOk(l, w)
    ensures CountersOk(l, Next(l, w, StartWatch(uid, id)))
  {
    if AdmitsWatcher(l, w.counters, uid, id) {
      assert Users(w.watchers + [(uid, id)]) == Users(w.watchers) + [uid];
      assert Requests(w.watchers + [(uid, id)]) == Requests(w.watchers) + [id];
      CountsMore(w.counters.watchersByUid, multiset(Users(w.watchers)), l.watchersPerUid, uid);
      CountsMore(w.counters.watchersByRequest, multiset(Requests(w.watchers)), l.watchersPerRequest, id);
    }
  }

  lemma WatcherLeaves(l: Limits, w: World, k: nat)
    requires CountersOk(l, w)
    ensures CountersOk(l, Next(l, w, EndWatch(k)))
  {
    if k < |w.watchers| {
      var users, ids := Users(w.watchers), Requests(w.watchers);
      assert Users(Drop(w.watchers, k)) == Drop(users, k);
      assert Requests(Drop(w.watchers, k)) == Drop(ids, k);
      Removed(users, k);
      Removed(ids, k);
      CountsLess(w.counters.watchersByUid, multiset(users), l.watchersPerUid, users[k]);
      CountsLess(w.counters.watchersByRequest, multiset(ids), l.watchersPerRequest, ids[k]);
    }
  }

  lemma NextCounts(l: Limits, w: World, call: Call)
    requires CountersOk(l, w)
    ensures CountersOk(l, Next(l, w, call))
  {
    match call
    case Submit(_, _) => SubmissionCounts(l, w, call);
    case EndSubmit(_) => SubmissionCounts(l, w, call);
    case StartWatch(uid, id) => WatcherAdds(l, w, uid, id);
    case EndWatch(k) => WatcherLeaves(l, w, k);
  }

  /** What one call does to the accepted and the stored times of one user. */
  ghost predicate TimesStep(l: Limits, w: World, w': World, call: Call, uid: nat) {
    var accepted, times := AcceptedOf(w, uid), TimesOf(w.counters, uid);
    var accepted', times' := AcceptedOf(w', uid), TimesOf(w'.counters, uid);
    if call.Submit? && call.now >= w.clock then
      && w'.clock == call.now
      && (call.uid != uid ==> accepted' == accepted && times' == times)
      && (call.uid == uid ==>
            var kept := Recent(times, call.now - MINUTE);
            if Admits(l, w.counters, uid, call.now) then
              accepted' == accepted + [call.now] && times' == kept + [call.now]
            else accepted' == accepted && times' == kept)
    else w'.clock == w.clock && accepted' == accepted && times' == times
  }

  lemma NextTimes(l: Limits, w: World, call: Call, uid: nat)
    ensures TimesStep(l, w, Next(l, w, call), call, uid)
  {}

  /** Compacting keeps the times spaced. */
  lemma RefusalKeeps(l: Limits, accepted: seq<int>, times: seq<int>, clock: int, now: int)
    requires TimesOk(l, accepted, times, clock) && clock <= now
    ensures TimesOk(l, accepted, Recent(times, now - MINUTE), now)
  {
    CompactionRemembers(accepted, times, clock, now);
  }

  /** So does admitting one more, if there is room. */
  lemma AdmissionKeeps(l: Limits, accepted: seq<int>, times: seq<int>, clock: int, now: int)
    requires TimesOk(l, accepted, times, clock) && clock <= now && |Recent(times, now - MINUTE)| < l.perMinute
    ensures TimesOk(l, accepted + [now], Recent(times, now - MINUTE) + [now], now)
  {
    AdmissionSpaces(accepted, times, clock, now, l.perMinute);
  }

  lemma TimePasses(l: Limits, accepted: seq<int>, times: seq<int>, clock: int, now: int)
    requires TimesOk(l, accepted, times, clock) && clock <= now
    ensures TimesOk(l, accepted, times, now)
  {}

  lemma RateIs(l: Limits, w: World, uid: nat, accepted: seq<int>, times: seq<int>)
    requires AcceptedOf(w, uid) == accepted && TimesOf(w.counters, uid) == times && TimesOk(l, accepted, times, w.clock)
    ensures RateOk(l, w, uid)
  {}

  lemma SubmitKeeps(l: Limits, w: World, w': World, call: Call)
    requires call.Submit? && call.now >= w.clock && RateOk(l, w, call.uid) && TimesStep(l, w, w', call, call.uid)
    ensures RateOk(l, w', call.uid)
  {
    var accepted, times := AcceptedOf(w, call.uid), TimesOf(w.counters, call.uid);
    var kept := Recent(times, call.now - MINUTE);
    if Admits(l, w.counters, call.uid, call.now) {
      AdmissionKeeps(l, accepted, times, w.clock, call.now);
      RateIs(l, w', call.uid, accepted + [call.now], kept + [call.now]);
    } else {
      RefusalKeeps(l, accepted, times, w.clock, call.now);
      RateIs(l, w', call.uid, accepted, kept);
    }
  }

  lemma TimesStepKeeps(l: Limits, w: World, w': World, call: Call, uid: nat)
    requires RateOk(l, w, uid) && TimesStep(l, w, w', call, uid)
    ensures RateOk(l, w', uid)
  {
    if call.Submit? && call.now >= w.clock && call.uid == uid {
      SubmitKeeps(l, w, w', call);
    } else {
      TimePasses(l, AcceptedOf(w, uid), TimesOf(w.counters, uid), w.clock, w'.clock);
      RateIs(l, w', uid, AcceptedOf(w, uid), TimesOf(w.counters, uid));
    }
  }

  lemma NextRate(l: Limits, w: World, call: Call, uid: nat)
    requires RateOk(l, w, uid)
    ensures RateOk(l, Next(l, w, call), uid)
  {
    NextTimes(l, w, call, uid);
    TimesStepKeeps(l, w, Next(l, w, call), call, uid);
  }

  lemma {:induction false} RunCounts(l: Limits, start: int, calls: seq<Call>)
    ensures CountersOk(l, Run(l, start, calls))
  {
    if calls != [] {
      RunCounts(l, start, calls[..|calls| - 1]);
      NextCounts(l, Run(l, start, calls[..|calls| - 1]), calls[|calls| - 1]);
    }
  }

  lemma {:induction false} RunRate(l: Limits, start: int, calls: seq<Call>, uid: nat)
    ensures RateOk(l, Run(l, start, calls), uid)
  {
    if calls != [] {
      RunRate(l, start, calls[..|calls| - 1], uid);
      NextRate(l, Run(l, start, calls[..|calls| - 1]), calls[|calls| - 1], uid);
    }
  }

  /** In every run of calls with a clock that never runs back, no window of one minute holds
      more admissions of one user than the limit. */
  lemma RateLimitHolds(l: Limits, start: int, calls: seq<Call>, uid: nat, end: int)
    ensures InWindow(AcceptedOf(Run(l, start, calls), uid), end) <= Bound(l.perMinute)
    ensures |Places(AcceptedOf(Run(l, start, calls), uid), end)| <= Bound(l.perMinute)
  {
    WindowCounts(AcceptedOf(Run(l, start, calls), uid), end);
    RunRate(l, start, calls, uid);
    if l.perMinute > 0 {
      SpacedFitsWindows(AcceptedOf(Run(l, start, calls), uid), l.perMinute, end);
    }
  }

  lemma {:induction false} WindowExact(t: seq<int>, end: int, k: nat)
    requires k <= |t|
    requires forall i :: 0 <= i < k ==> t[i] <= end - MINUTE
    requires forall i :: k <= i < |t| ==> end - MINUTE < t[i] <= end
    ensures InWindow(t, end) == |t| - k
  {
    if k < |t| {
      WindowExact(t[..|t| - 1], end, k);
    } else {
      WindowEmpty(t, end);
    }
  }

  /** And the rate turns a submission away only when the minute up to now is already full. */
  lemma RateIsExact(l: Limits, start: int, calls: seq<Call>, uid: nat, now: int)
    requires now >= Run(l, start, calls).clock
    ensures var w := Run(l, start, calls);
      Admits(l, w.counters, uid, now) <==>
        && InWindow(AcceptedOf(w, uid), now) < l.perMinute
        && Count(w.counters.submitting, uid) < l.concurrentPerUid
        && w.counters.submittingTotal < l.concurrentTotal
  {
    var w := Run(l, start, calls);
    RunRate(l, start, calls, uid);
    RecentIsWindow(AcceptedOf(w, uid), TimesOf(w.counters, uid), w.clock, now);
  }

  /** What is left after the compaction is what the minute up to now holds. */
  lemma RecentIsWindow(accepted: seq<int>, times: seq<int>, clock: int, now: int)
    requires Sorted(accepted) && Remembers(accepted, times, clock) && clock <= now
    ensures InWindow(accepted, now) == |Recent(times, now - MINUTE)|
  {
    CompactionRemembers(accepted, times, clock, now);
    WindowExact(accepted, now, |accepted| - |Recent(times, now - MINUTE)|);
  }

  /** In every run of paired calls the counters are exact: totals are sums, sums are numbers
      of live calls, keys are those with a positive count, and every limit holds. */
  lemma CountersAreExact(l: Limits, start: int, calls: seq<Call>)
    ensures var w := Run(l, start, calls); var c := w.counters;
      && Sum(c.submitting) == c.submittingTotal == |w.submissions| <= Bound(l.concurrentTotal)
      && Sum(c.watchersByUid) == Sum(c.watchersByRequest) == |w.watchers|
      && (forall uid :: uid in c.submitting <==> uid in w.submissions)
      && (forall uid <- c.submitting :: 0 < c.submitting[uid] <= Bound(l.concurrentPerUid))
      && (forall uid <- c.watchersByUid :: 0 < c.watchersByUid[uid] <= Bound(l.watchersPerUid))
      && (forall id <- c.watchersByRequest :: 0 < c.watchersByRequest[id] <= Bound(l.watchersPerRequest))
  {
    var w := Run(l, start, calls);
    RunCounts(l, start, calls);
    SumIsSize(w.counters.submitting, w.submissions, l.concurrentPerUid);
    SumIsSize(w.counters.watchersByUid, multiset(Users(w.watchers)), l.watchersPerUid);
    SumIsSize(w.counters.watchersByRequest, multiset(Requests(w.watchers)), l.watchersPerRequest);
  }
}
