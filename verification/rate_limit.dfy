/**
 * The two rate limiters: a sliding window that forgets what has left it, and
 * a fixed window per device.
 */
module RateLimit {
  import opened Basics

  // ----- sliding window --------------------------------------------------------------

  /** Drop the oldest entries that have left the window. */
  function Pruned(q: seq<int>, window: int, now: int): seq<int>
    decreases |q|
  {
    if q != [] && now - q[0] > window then Pruned(q[1..], window, now) else q
  }

  function AllowFrame(q: seq<int>, maxFrames: nat, window: int, now: int): (seq<int>, bool) {
    var kept := Pruned(q, window, now);
    if |kept| >= maxFrames then (kept, false) else (kept + [now], true)
  }

  class FrameRateLimiter {
    const maxFrames: nat
    const windowMs: int
    var timestamps: seq<int>

    constructor (maxFrames: nat, windowMs: int)
      ensures this.maxFrames == maxFrames && this.windowMs == windowMs && timestamps == []
    {
      this.maxFrames, this.windowMs, timestamps := maxFrames, windowMs, [];
    }

    method Allow(now: int) returns (ok: bool)
      modifies this
      ensures (timestamps, ok) == AllowFrame(old(timestamps), maxFrames, windowMs, now)
    {
      while |timestamps| > 0 && now - timestamps[0] > windowMs
        invariant Pruned(timestamps, windowMs, now) == Pruned(old(timestamps), windowMs, now)
        decreases |timestamps|
      {
        timestamps := timestamps[1..];
      }
      if |timestamps| >= maxFrames {
        return false;
      }
      timestamps := timestamps + [now];
      ok := true;
    }
  }

  /** The entries of a history in a closed interval. */
  function CountIn(h: seq<int>, lo: int, hi: int): nat
    decreases |h|
  {
    if h == [] then 0 else CountIn(h[..|h| - 1], lo, hi) + if lo <= h[|h| - 1] <= hi then 1 else 0
  }

  lemma OneMoreCount(h: seq<int>, t: int, lo: int, hi: int)
    ensures CountIn(h + [t], lo, hi) == CountIn(h, lo, hi) + if lo <= t <= hi then 1 else 0
  {
    assert (h + [t])[..|h|] == h;
  }

  /** The queue and the times of all frames allowed so far. */
  function AfterFrames(maxFrames: nat, window: int, nows: seq<int>): (seq<int>, seq<int>)
    decreases |nows|
  {
    if nows == [] then ([], [])
    else
      var (q, h) := AfterFrames(maxFrames, window, nows[..|nows| - 1]);
      var now := nows[|nows| - 1];
      var (q', ok) := AllowFrame(q, maxFrames, window, now);
      (q', if ok then h + [now] else h)
  }

  predicate Sorted(s: seq<int>) { forall i, j :: 0 <= i < j < |s| ==> s[i] <= s[j] }

  /** The queue is the end of the history; what is gone had left the window by `now`. */
  ghost predicate IsRecent(q: seq<int>, h: seq<int>, window: int, now: int) {
    && |q| <= |h| && h[|h| - |q|..] == q
    && Sorted(h) && (forall i :: 0 <= i < |h| ==> h[i] <= now)
    && forall i :: 0 <= i < |h| - |q| ==> now - h[i] > window
  }

  lemma {:induction false} PrunedIsRecent(q: seq<int>, h: seq<int>, window: int, before: int, now: int)
    requires before <= now && IsRecent(q, h, window, before)
    ensures var kept := Pruned(q, window, now); IsRecent(kept, h, window, now) && forall i :: 0 <= i < |kept| ==> now - kept[i] <= window
    decreases |q|
  {
    if q != [] && now - q[0] > window {
      assert q[0] == h[|h| - |q|];
      PrunedStep(q, h, window, before, now);
      PrunedIsRecent(q[1..], h, window, now, now);
    } else if q != [] {
      assert forall i :: 0 <= i < |q| ==> q[i] == h[|h| - |q| + i];
    }
  }

  lemma PrunedStep(q: seq<int>, h: seq<int>, window: int, before: int, now: int)
    requires before <= now && IsRecent(q, h, window, before) && q != [] && now - q[0] > window
    ensures IsRecent(q[1..], h, window, now)
  {
    assert h[|h| - |q|..][1..] == h[|h| - |q| + 1..];
    assert q[0] == h[|h| - |q|];
  }

  /** Counting a recent interval counts queue entries only. */
  lemma {:induction false} CountRecent(h: seq<int>, k: nat, lo: int, hi: int)
    requires k <= |h| && forall i :: 0 <= i < k ==> h[i] < lo
    ensures CountIn(h, lo, hi) <= |h| - k
    ensures (forall i :: k <= i < |h| ==> lo <= h[i] <= hi) ==> CountIn(h, lo, hi) == |h| - k
    decreases |h|
  {
    if h == [] {
    } else {
      var n := |h| - 1;
      CountRecent(h[..n], if k <= n then k else n, lo, hi);
    }
  }

  lemma {:induction false} RecentRuns(maxFrames: nat, window: int, nows: seq<int>, now: int)
    requires Sorted(nows) && (nows != [] ==> nows[|nows| - 1] <= now)
    ensures var (q, h) := AfterFrames(maxFrames, window, nows); IsRecent(Pruned(q, window, now), h, window, now)
    decreases |nows|
  {
    hide Pruned, IsRecent;
    if nows == [] {
      EmptyRecent(window, now);
    } else {
      var n := |nows| - 1;
      RecentRuns(maxFrames, window, nows[..n], nows[n]);
      var (q, h) := AfterFrames(maxFrames, window, nows[..n]);
      RecentPush(Pruned(q, window, nows[n]), h, window, nows[n]);
      var (q', h') := AfterFrames(maxFrames, window, nows);
      PrunedIsRecent(q', h', window, nows[n], now);
    }
  }

  lemma EmptyRecent(window: int, now: int)
    ensures IsRecent(Pruned([], window, now), [], window, now)
  {
  }

  lemma RecentPush(q: seq<int>, h: seq<int>, window: int, now: int)
    requires IsRecent(q, h, window, now)
    ensures IsRecent(q + [now], h + [now], window, now)
  {
    assert (h + [now])[|h| - |q|..] == h[|h| - |q|..] + [now];
  }

  /**
   * With a clock that never runs back, the pruned queue decides as the full history would: a frame is allowed
   * exactly when fewer than the maximum were allowed in the closed window that ends now.
   */
  lemma QueueDecidesAsHistory(maxFrames: nat, window: nat, nows: seq<int>, now: int)
    requires Sorted(nows) && (nows != [] ==> nows[|nows| - 1] <= now)
    ensures var (q, h) := AfterFrames(maxFrames, window, nows);
      AllowFrame(q, maxFrames, window, now).1 <==> CountIn(h, now - window, now) < maxFrames
  {
    hide IsRecent, AfterFrames;
    var (q, h) := AfterFrames(maxFrames, window, nows);
    RecentRuns(maxFrames, window, nows, now);
    var kept := Pruned(q, window, now);
    PrunedEnds(q, window, now);
    RecentCount(kept, h, window, now);
  }

  lemma {:induction false} PrunedEnds(q: seq<int>, window: int, now: int)
    ensures Pruned(q, window, now) != [] ==> now - Pruned(q, window, now)[0] <= window
    decreases |q|
  {
    if q == [] {
    } else {
      PrunedEnds(q[1..], window, now);
    }
  }

  lemma RecentCount(q: seq<int>, h: seq<int>, window: int, now: int)
    requires IsRecent(q, h, window, now) && (q != [] ==> now - q[0] <= window)
    ensures CountIn(h, now - window, now) == |q|
  {
    var k := |h| - |q|;
    assert q != [] ==> q[0] == h[k];
    CountRecent(h, k, now - window, now);
  }

  /** No closed interval as long as the window holds more than the maximum of allowed frames. */
  lemma {:induction false} SlidingWindowBound(maxFrames: nat, window: int, nows: seq<int>, t: int)
    requires Sorted(nows)
    ensures CountIn(AfterFrames(maxFrames, window, nows).1, t, t + window) <= maxFrames
    decreases |nows|
  {
    hide Pruned, IsRecent;
    if nows == [] {
    } else {
      var n := |nows| - 1;
      var now := nows[n];
      SlidingWindowBound(maxFrames, window, nows[..n], t);
      RecentRuns(maxFrames, window, nows[..n], now);
      var (q, h) := AfterFrames(maxFrames, window, nows[..n]);
      OneMoreCount(h, now, t, t + window);
      if t <= now <= t + window {
        RecentInterval(Pruned(q, window, now), h, window, now, t);
      }
    }
  }

  lemma RecentInterval(q: seq<int>, h: seq<int>, window: int, now: int, t: int)
    requires IsRecent(q, h, window, now) && t <= now <= t + window
    ensures CountIn(h, t, t + window) <= |q|
  {
    CountRecent(h, |h| - |q|, t, t + window);
  }

  // ----- fixed window per device ---------------------------------------------------------

  datatype Window = Window(start: int, count: nat)

  datatype Request = Request(key: string, now: int)

  datatype Limits = Limits(maxPerWindow: nat, windowMs: int, maxKeys: nat)

  predicate OpensWindow(w: map<string, Window>, c: Limits, r: Request) {
    r.key !in w || r.now - w[r.key].start >= c.windowMs
  }

  predicate Clears(w: map<string, Window>, c: Limits, r: Request) { OpensWindow(w, c, r) && |w| >= c.maxKeys }

  function AllowDevice(w: map<string, Window>, c: Limits, r: Request): (map<string, Window>, bool) {
    if OpensWindow(w, c, r) then
      ((if Clears(w, c, r) then map[] else w)[r.key := Window(r.now, 1)], true)
    else
      var n := w[r.key].count + 1;
      (w[r.key := Window(w[r.key].start, n)], n <= c.maxPerWindow)
  }

  class DeviceRateLimiter {
    const limits: Limits
    var windows: map<string, Window>

    constructor (limits: Limits)
      ensures this.limits == limits && windows == map[]
    {
      this.limits, windows := limits, map[];
    }

    method Allow(key: string, now: int) returns (ok: bool)
      modifies this
      ensures (windows, ok) == AllowDevice(old(windows), limits, Request(key, now))
    {
      if key !in windows || now - windows[key].start >= limits.windowMs {
        if |windows| >= limits.maxKeys {
          windows := map[];
        }
        windows := windows[key := Window(now, 1)];
        return true;
      }
      var window := windows[key];
      window := window.(count := window.count + 1);
      windows := windows[key := window];
      ok := window.count <= limits.maxPerWindow;
    }
  }

  function AfterRequests(c: Limits, rs: seq<Request>): map<string, Window>
    decreases |rs|
  {
    if rs == [] then map[] else AllowDevice(AfterRequests(c, rs[..|rs| - 1]), c, rs[|rs| - 1]).0
  }

  function Allowed(c: Limits, rs: seq<Request>, i: nat): bool
    requires i < |rs|
  {
    AllowDevice(AfterRequests(c, rs[..i]), c, rs[i]).1
  }

  /** The times at which a device was allowed. */
  function Grants(c: Limits, rs: seq<Request>, key: string): seq<int>
    decreases |rs|
  {
    if rs == [] then []
    else
      var n := |rs| - 1;
      Grants(c, rs[..n], key) + if rs[n].key == key && Allowed(c, rs, n) then [rs[n].now] else []
  }

  /** How many devices the table can hold: a bound of 0 still keeps the last one. */
  function Room(c: Limits): nat { if c.maxKeys == 0 then 1 else c.maxKeys }

  /** The table never outgrows its key bound. */
  lemma {:induction false} KeysBounded(c: Limits, rs: seq<Request>)
    ensures |AfterRequests(c, rs)| <= Room(c)
    decreases |rs|
  {
    if rs == [] {
    } else {
      var n := |rs| - 1;
      KeysBounded(c, rs[..n]);
      var w := AfterRequests(c, rs[..n]);
      PutSize(w, rs[n].key, Window(rs[n].now, 1));
      PutSize(map[], rs[n].key, Window(rs[n].now, 1));
      if !OpensWindow(w, c, rs[n]) {
        PutSize(w, rs[n].key, Window(w[rs[n].key].start, w[rs[n].key].count + 1));
      }
    }
  }

  lemma PutSize(w: map<string, Window>, key: string, v: Window)
    ensures |w[key := v]| == |w| + if key in w then 0 else 1
  {
    var w' := w[key := v];
    assert w'.Keys == w.Keys + {key};
    assert |w'| == |w'.Keys| && |w| == |w.Keys|;
  }

  /** How many requests a window lets through; the request that opens it always passes. */
  function PerWindow(c: Limits): nat { if c.maxPerWindow == 0 then 1 else c.maxPerWindow }

  predicate NeverClears(c: Limits, rs: seq<Request>) {
    forall i :: 0 <= i < |rs| ==> !Clears(AfterRequests(c, rs[..i]), c, rs[i])
  }

  predicate InOrder(rs: seq<Request>) { forall i, j :: 0 <= i < j < |rs| ==> rs[i].now <= rs[j].now }

  function Least(a: nat, b: nat): nat { if a < b then a else b }

  /** At most a window's worth of grants since the device's window opened, and as many in the window before. */
  predicate Metered(w: map<string, Window>, c: Limits, g: seq<int>, key: string, now: int) {
    && (key !in w ==> g == [])
    && (key in w ==>
        var s := w[key].start;
        && s <= now && w[key].count >= 1
        && (forall i :: 0 <= i < |g| ==> g[i] < s + c.windowMs)
        && CountIn(g, s, s + c.windowMs - 1) <= Least(w[key].count, PerWindow(c))
        && CountIn(g, s - c.windowMs, s - 1) <= PerWindow(c))
  }

  lemma {:induction false} CountSubset(g: seq<int>, lo: int, hi: int, lo': int, hi': int)
    requires forall i :: 0 <= i < |g| && lo <= g[i] <= hi ==> lo' <= g[i] <= hi'
    ensures CountIn(g, lo, hi) <= CountIn(g, lo', hi')
    decreases |g|
  {
    if g == [] {
    } else {
      CountSubset(g[..|g| - 1], lo, hi, lo', hi');
    }
  }

  lemma {:induction false} CountSplit(g: seq<int>, lo: int, mid: int, hi: int)
    ensures CountIn(g, lo, hi) <= CountIn(g, lo, mid - 1) + CountIn(g, mid, hi)
    decreases |g|
  {
    if g == [] {
    } else {
      CountSplit(g[..|g| - 1], lo, mid, hi);
    }
  }

  lemma {:induction false} CountNone(g: seq<int>, lo: int, hi: int)
    requires forall i :: 0 <= i < |g| ==> !(lo <= g[i] <= hi)
    ensures CountIn(g, lo, hi) == 0
    decreases |g|
  {
    if g == [] {
    } else {
      CountNone(g[..|g| - 1], lo, hi);
    }
  }

  lemma MeteredOpens(w: map<string, Window>, c: Limits, g: seq<int>, before: int, r: Request)
    requires c.windowMs >= 1 && Metered(w, c, g, r.key, before) && before <= r.now && OpensWindow(w, c, r) && !Clears(w, c, r)
    ensures Metered(AllowDevice(w, c, r).0, c, g + [r.now], r.key, r.now)
  {
    var now, W := r.now, c.windowMs;
    OneMoreCount(g, now, now, now + W - 1);
    OneMoreCount(g, now, now - W, now - 1);
    CountNone(g, now, now + W - 1);
    if r.key in w {
      var s := w[r.key].start;
      CountSubset(g, now - W, now - 1, s, s + W - 1);
    }
  }

  lemma MeteredStays(w: map<string, Window>, c: Limits, g: seq<int>, before: int, r: Request)
    requires c.windowMs >= 1 && Metered(w, c, g, r.key, before) && before <= r.now && !OpensWindow(w, c, r)
    ensures var (w', ok) := AllowDevice(w, c, r); Metered(w', c, if ok then g + [r.now] else g, r.key, r.now)
  {
    var s, W := w[r.key].start, c.windowMs;
    OneMoreCount(g, r.now, s, s + W - 1);
    OneMoreCount(g, r.now, s - W, s - 1);
  }

  /** One more request. */
  lemma OneMoreRequest(c: Limits, rs: seq<Request>, r: Request, key: string)
    ensures var w := AfterRequests(c, rs);
      && AfterRequests(c, rs + [r]) == AllowDevice(w, c, r).0
      && Grants(c, rs + [r], key) == Grants(c, rs, key) + (if r.key == key && AllowDevice(w, c, r).1 then [r.now] else [])
  {
    hide AllowDevice;
    assert (rs + [r])[..|rs|] == rs;
  }

  // ----- a refusal is earned ----------------------------------------------------------------

  /** The count of an open window is backed by grants of its device since the window opened. */
  predicate Backed(w: map<string, Window>, c: Limits, g: seq<int>, key: string, now: int) {
    key in w ==>
      var s := w[key].start;
      s <= now && w[key].count >= 1 && CountIn(g, s, now) >= Least(w[key].count, PerWindow(c))
  }

  lemma {:induction false} CountWider(g: seq<int>, lo: int, hi: int, hi': int)
    requires hi <= hi'
    ensures CountIn(g, lo, hi) <= CountIn(g, lo, hi')
    decreases |g|
  {
    if g == [] {
    } else {
      CountWider(g[..|g| - 1], lo, hi, hi');
    }
  }

  lemma BackedStep(w: map<string, Window>, c: Limits, g: seq<int>, before: int, r: Request, key: string)
    requires Backed(w, c, g, key, before) && before <= r.now
    ensures var (w', ok) := AllowDevice(w, c, r);
      Backed(w', c, if r.key == key && ok then g + [r.now] else g, key, r.now)
  {
    if key in w {
      CountWider(g, w[key].start, before, r.now);
      OneMoreCount(g, r.now, w[key].start, r.now);
    }
    OneMoreCount(g, r.now, r.now, r.now);
  }

  lemma {:induction false} BackedRuns(c: Limits, rs: seq<Request>, key: string, now: int)
    requires InOrder(rs) && (rs != [] ==> rs[|rs| - 1].now <= now)
    ensures Backed(AfterRequests(c, rs), c, Grants(c, rs, key), key, now)
    decreases |rs|
  {
    hide AllowDevice, OpensWindow, Backed, CountIn, AfterRequests, Grants;
    if rs == [] {
      NothingAsked(c, key);
      NothingBacked(c, key, now);
    } else {
      var n := |rs| - 1;
      var before := if n == 0 then rs[n].now else rs[n - 1].now;
      BackedRuns(c, rs[..n], key, before);
      BackedStep(AfterRequests(c, rs[..n]), c, Grants(c, rs[..n], key), before, rs[n], key);
      OneMoreRequest(c, rs[..n], rs[n], key);
      assert rs == rs[..n] + [rs[n]];
      assert Grants(c, rs[..n], key) + [] == Grants(c, rs[..n], key);
      BackedLater(AfterRequests(c, rs), c, Grants(c, rs, key), key, rs[n].now, now);
    }
  }

  lemma NothingAsked(c: Limits, key: string)
    ensures AfterRequests(c, []) == map[] && Grants(c, [], key) == []
  {
  }

  lemma NothingBacked(c: Limits, key: string, now: int)
    ensures Backed(map[], c, [], key, now)
  {
  }

  lemma BackedLater(w: map<string, Window>, c: Limits, g: seq<int>, key: string, before: int, now: int)
    requires Backed(w, c, g, key, before) && before <= now
    ensures Backed(w, c, g, key, now)
  {
    if key in w {
      CountWider(g, w[key].start, before, now);
    }
  }

  /**
   * In every run, with clears or without, a device is refused only after a window's worth of grants: it was allowed
   * at least that often within less than the window up to now.
   */
  lemma RefusedOnlyAfterAWindowful(c: Limits, rs: seq<Request>, i: nat)
    requires InOrder(rs) && i < |rs| && !Allowed(c, rs, i)
    ensures CountIn(Grants(c, rs[..i], rs[i].key), rs[i].now - c.windowMs + 1, rs[i].now) >= PerWindow(c)
  {
    hide CountIn, Grants, AfterRequests;
    var w, g, r := AfterRequests(c, rs[..i]), Grants(c, rs[..i], rs[i].key), rs[i];
    BackedRuns(c, rs[..i], r.key, r.now);
    CountEarlier(g, w[r.key].start, r.now - c.windowMs + 1, r.now);
  }

  lemma {:induction false} CountEarlier(g: seq<int>, lo: int, lo': int, hi: int)
    requires lo' <= lo
    ensures CountIn(g, lo, hi) <= CountIn(g, lo', hi)
    decreases |g|
  {
    if g == [] {
    } else {
      CountEarlier(g[..|g| - 1], lo, lo', hi);
    }
  }

  lemma ShorterRun(c: Limits, rs: seq<Request>)
    requires rs != [] && InOrder(rs) && NeverClears(c, rs)
    ensures var init := rs[..|rs| - 1];
      InOrder(init) && NeverClears(c, init) && !Clears(AfterRequests(c, init), c, rs[|rs| - 1]) && rs == init + [rs[|rs| - 1]]
  {
    hide AllowDevice, Clears, AfterRequests;
    var n := |rs| - 1;
    assert forall i :: 0 <= i < n ==> rs[..n][..i] == rs[..i] && rs[..n][i] == rs[i];
  }

  lemma {:induction false} MeteredRuns(c: Limits, rs: seq<Request>, key: string)
    requires c.windowMs >= 1 && InOrder(rs) && NeverClears(c, rs) && rs != []
    ensures Metered(AfterRequests(c, rs), c, Grants(c, rs, key), key, rs[|rs| - 1].now)
    decreases |rs|
  {
    hide Metered, AllowDevice, OpensWindow, AfterRequests, Grants, NeverClears, Clears;
    var n := |rs| - 1;
    var r := rs[n];
    var w, g := AfterRequests(c, rs[..n]), Grants(c, rs[..n], key);
    var before := if n == 0 then r.now else rs[n - 1].now;
    ShorterRun(c, rs);
    OneMoreRequest(c, rs[..n], r, key);
    if n == 0 {
      MeteredAtFirst(c, key, r.now);
    } else {
      MeteredRuns(c, rs[..n], key);
    }
    assert g + [] == g;
    if r.key != key {
      MeteredElsewhere(w, c, g, key, before, r);
    } else if OpensWindow(w, c, r) {
      MeteredOpens(w, c, g, before, r);
      OpeningPasses(w, c, r);
    } else {
      MeteredStays(w, c, g, before, r);
    }
  }

  lemma OpeningPasses(w: map<string, Window>, c: Limits, r: Request)
    requires OpensWindow(w, c, r)
    ensures AllowDevice(w, c, r).1
  {
  }

  lemma MeteredAtFirst(c: Limits, key: string, now: int)
    ensures Metered(AfterRequests(c, []), c, Grants(c, [], key), key, now)
  {
  }

  lemma MeteredElsewhere(w: map<string, Window>, c: Limits, g: seq<int>, key: string, before: int, r: Request)
    requires Metered(w, c, g, key, before) && before <= r.now && r.key != key && !Clears(w, c, r)
    ensures Metered(AllowDevice(w, c, r).0, c, g, key, r.now)
  {
  }

  /**
   * While the table is never cleared and the clock never runs back, a device is allowed at most twice a window's
   * worth in any half-open interval as long as the window.
   */
  lemma {:induction false} FixedWindowBound(c: Limits, rs: seq<Request>, key: string, t: int)
    requires InOrder(rs) && NeverClears(c, rs)
    ensures CountIn(Grants(c, rs, key), t, t + c.windowMs - 1) <= 2 * PerWindow(c)
    decreases |rs|
  {
    hide Metered, AllowDevice, AfterRequests, NeverClears, Clears;
    if c.windowMs < 1 {
      CountNone(Grants(c, rs, key), t, t + c.windowMs - 1);
    } else if rs != [] {
      var n := |rs| - 1;
      ShorterRun(c, rs);
      OneMoreRequest(c, rs[..n], rs[n], key);
      FixedWindowBound(c, rs[..n], key, t);
      var now, g := rs[n].now, Grants(c, rs, key);
      OneMoreCount(Grants(c, rs[..n], key), now, t, t + c.windowMs - 1);
      if t <= now <= t + c.windowMs - 1 {
        MeteredRuns(c, rs, key);
        MeteredInterval(AfterRequests(c, rs), c, g, key, now, t);
      } else {
        assert Grants(c, rs[..n], key) + [] == Grants(c, rs[..n], key);
      }
    }
  }

  lemma MeteredInterval(w: map<string, Window>, c: Limits, g: seq<int>, key: string, now: int, t: int)
    requires c.windowMs >= 1 && Metered(w, c, g, key, now) && t <= now <= t + c.windowMs - 1
    ensures CountIn(g, t, t + c.windowMs - 1) <= 2 * PerWindow(c)
  {
    if key in w {
      var s, W := w[key].start, c.windowMs;
      CountSubset(g, t, t + W - 1, s - W, s + W - 1);
      CountSplit(g, s - W, s, s + W - 1);
    }
  }

  // ----- how many devices the table has room for ---------------------------------------------

  function KeysOf(rs: seq<Request>): set<string> { set i | 0 <= i < |rs| :: rs[i].key }

  lemma KeysOfPrefix(rs: seq<Request>, n: nat)
    requires n <= |rs|
    ensures KeysOf(rs[..n]) <= KeysOf(rs)
    ensures n < |rs| ==> rs[n].key in KeysOf(rs)
  {
    assert forall i :: 0 <= i < n ==> rs[..n][i] == rs[i];
  }

  /** The table only ever holds devices that asked. */
  lemma {:induction false} TableWithinKeys(c: Limits, rs: seq<Request>)
    ensures AfterRequests(c, rs).Keys <= KeysOf(rs)
    decreases |rs|
  {
    if rs == [] {
    } else {
      var n := |rs| - 1;
      TableWithinKeys(c, rs[..n]);
      KeysOfPrefix(rs, n);
    }
  }

  lemma SmallerTable(w: map<string, Window>, keys: set<string>)
    requires w.Keys <= keys
    ensures |w| <= |keys|
    ensures |w| == |keys| ==> w.Keys == keys
  {
    assert |w| == |w.Keys|;
    SubsetSize(w.Keys, keys);
  }

  lemma SubsetSize(a: set<string>, b: set<string>)
    requires a <= b
    ensures |a| <= |b| && (|a| == |b| ==> a == b)
  {
    assert b == a + (b - a);
    assert |b| == |a| + |b - a|;
    if |a| == |b| {
      assert b - a == {};
    }
  }

  /**
   * When at most maxKeys devices ask in a run, the table is cleared exactly by a device that reopens its own
   * expired window while the table is full; with fewer than maxKeys devices it never is.
   */
  lemma ClearsExactly(c: Limits, rs: seq<Request>, i: nat)
    requires i < |rs| && |KeysOf(rs)| <= c.maxKeys
    ensures var w := AfterRequests(c, rs[..i]);
      Clears(w, c, rs[i]) <==> |w| == c.maxKeys && rs[i].key in w && rs[i].now - w[rs[i].key].start >= c.windowMs
    ensures |KeysOf(rs)| < c.maxKeys ==> !Clears(AfterRequests(c, rs[..i]), c, rs[i])
  {
    var w := AfterRequests(c, rs[..i]);
    TableWithinKeys(c, rs[..i]);
    KeysOfPrefix(rs, i);
    SmallerTable(w, KeysOf(rs));
  }

  lemma FewKeysNeverClear(c: Limits, rs: seq<Request>)
    requires |KeysOf(rs)| < c.maxKeys
    ensures NeverClears(c, rs)
  {
    hide Clears, AfterRequests;
    forall i | 0 <= i < |rs| ensures !Clears(AfterRequests(c, rs[..i]), c, rs[i]) {
      ClearsExactly(c, rs, i);
    }
  }

  /** So with fewer than maxKeys devices the bound holds in every run whose clock never runs back. */
  lemma FixedWindowBoundForFewKeys(c: Limits, rs: seq<Request>, key: string, t: int)
    requires InOrder(rs) && |KeysOf(rs)| < c.maxKeys
    ensures CountIn(Grants(c, rs, key), t, t + c.windowMs - 1) <= 2 * PerWindow(c)
  {
    FewKeysNeverClear(c, rs);
    FixedWindowBound(c, rs, key, t);
  }

  // ----- exactly as many devices as room ----------------------------------------------------------

  function Repeat<T>(x: T, n: nat): seq<T> { seq(n, i requires 0 <= i < n => x) }

  /** A device asks n times at one instant inside its window, without exceeding the limit. */
  lemma {:induction false} Burst(c: Limits, rs: seq<Request>, key: string, now: int, n: nat)
    requires var w := AfterRequests(c, rs);
      key in w && now - w[key].start < c.windowMs && w[key].count + n <= c.maxPerWindow
    ensures var w, rs' := AfterRequests(c, rs), rs + Repeat(Request(key, now), n);
      && AfterRequests(c, rs') == w[key := Window(w[key].start, w[key].count + n)]
      && Grants(c, rs', key) == Grants(c, rs, key) + Repeat(now, n)
    decreases n
  {
    hide AfterRequests, Grants;
    var q := Request(key, now);
    if n == 0 {
      assert rs + Repeat(q, 0) == rs && Grants(c, rs, key) + Repeat(now, 0) == Grants(c, rs, key);
    } else {
      Burst(c, rs, key, now, n - 1);
      var before := rs + Repeat(q, n - 1);
      OneMoreRequest(c, before, q, key);
      assert before + [q] == rs + Repeat(q, n);
      assert Repeat(now, n - 1) + [now] == Repeat(now, n);
      assert Grants(c, rs, key) + Repeat(now, n - 1) + [now] == Grants(c, rs, key) + Repeat(now, n);
    }
  }

  /** A device that opens a window without clearing the table, then uses it up at once. */
  lemma OpenAndUse(c: Limits, rs: seq<Request>, key: string, now: int, n: nat)
    requires 1 <= n <= c.maxPerWindow && c.windowMs >= 1
    requires var w := AfterRequests(c, rs); OpensWindow(w, c, Request(key, now)) && |w| < c.maxKeys
    ensures var w, rs' := AfterRequests(c, rs), rs + Repeat(Request(key, now), n);
      && AfterRequests(c, rs') == w[key := Window(now, n)]
      && Grants(c, rs', key) == Grants(c, rs, key) + Repeat(now, n)
  {
    hide AfterRequests, Grants;
    var q := Request(key, now);
    OneMoreRequest(c, rs, q, key);
    Burst(c, rs + [q], key, now, n - 1);
    assert rs + [q] + Repeat(q, n - 1) == rs + Repeat(q, n);
    assert Grants(c, rs, key) + [now] + Repeat(now, n - 1) == Grants(c, rs, key) + Repeat(now, n);
  }

  /** New devices fill the table up to its bound. */
  lemma {:induction false} Fill(c: Limits, rs: seq<Request>, fillers: seq<string>, now: int, other: string)
    requires var w := AfterRequests(c, rs);
      && (forall i :: 0 <= i < |fillers| ==> fillers[i] !in w && fillers[i] != other) && |w| + |fillers| <= c.maxKeys
    requires Distinct(fillers)
    ensures var w, w' := AfterRequests(c, rs), AfterRequests(c, rs + Round(fillers, now));
      && |w'| == |w| + |fillers| && (forall k :: k in w ==> k in w' && w'[k] == w[k])
      && (forall k :: k in w' ==> k in w || k in fillers)
    ensures Grants(c, rs + Round(fillers, now), other) == Grants(c, rs, other)
    decreases |fillers|
  {
    hide AfterRequests, Grants;
    if fillers == [] {
      assert rs + Round(fillers, now) == rs;
    } else {
      var n := |fillers| - 1;
      Fill(c, rs, fillers[..n], now, other);
      var before, q := rs + Round(fillers[..n], now), Request(fillers[n], now);
      var w := AfterRequests(c, before);
      assert fillers[n] !in fillers[..n];
      PutSize(w, q.key, Window(now, 1));
      OneMoreRequest(c, before, q, other);
      assert before + [q] == rs + Round(fillers, now);
      assert Grants(c, before, other) + [] == Grants(c, before, other);
    }
  }

  /** A device that reopens its expired window while the table is full leaves the table to itself. */
  lemma ReopenClears(c: Limits, rs: seq<Request>, key: string, now: int, other: string)
    requires var w := AfterRequests(c, rs); key in w && now - w[key].start >= c.windowMs && |w| >= c.maxKeys && key != other
    ensures AfterRequests(c, rs + [Request(key, now)]) == map[key := Window(now, 1)]
    ensures Grants(c, rs + [Request(key, now)], other) == Grants(c, rs, other)
  {
    hide AfterRequests, Grants;
    OneMoreRequest(c, rs, Request(key, now), other);
    assert Grants(c, rs, other) + [] == Grants(c, rs, other);
  }

  lemma {:induction false} RepeatCount(g: seq<int>, t: int, n: nat, lo: int, hi: int)
    ensures CountIn(g + Repeat(t, n), lo, hi) == CountIn(g, lo, hi) + if lo <= t <= hi then n else 0
    decreases n
  {
    if n == 0 {
      assert g + Repeat(t, 0) == g;
    } else {
      RepeatCount(g, t, n - 1, lo, hi);
      OneMoreCount(g + Repeat(t, n - 1), t, lo, hi);
      assert g + Repeat(t, n - 1) + [t] == g + Repeat(t, n);
    }
  }

  /** The requests up to the full table: one device opens at 0 and again a window later, another opened in between. */
  lemma FullTable(c: Limits, a: string, b: string, fillers: seq<string>) returns (rs: seq<Request>)
    requires c.maxKeys == |fillers| + 2 >= 3 && c.maxPerWindow >= 2 && c.windowMs >= 3
    requires a != b && Distinct(fillers) && a !in fillers && b !in fillers
    ensures var W, M := c.windowMs, c.maxPerWindow;
      && rs == [Request(b, 0), Request(a, 1)] + Repeat(Request(b, W - 1), M - 1) + Repeat(Request(b, W), M) + Round(fillers, W)
      && |AfterRequests(c, rs)| == c.maxKeys && a in AfterRequests(c, rs) && AfterRequests(c, rs)[a].start == 1
      && Grants(c, rs, b) == [0] + Repeat(W - 1, M - 1) + Repeat(W, M)
  {
    hide AfterRequests, Grants, AllowDevice;
    var W, M := c.windowMs, c.maxPerWindow;
    NoRequests(c, b, 0);
    OneMoreRequest(c, [], Request(b, 0), b);
    FirstTwo(c, a, b);
    OneMoreRequest(c, [Request(b, 0)], Request(a, 1), b);
    var r2 := [Request(b, 0), Request(a, 1)];
    assert [] + [Request(b, 0)] == [Request(b, 0)] && [Request(b, 0)] + [Request(a, 1)] == r2;
    assert AfterRequests(c, r2) == map[b := Window(0, 1), a := Window(1, 1)] && Grants(c, r2, b) == [0];
    Burst(c, r2, b, W - 1, M - 1);
    var r3 := r2 + Repeat(Request(b, W - 1), M - 1);
    assert AfterRequests(c, r3) == map[b := Window(0, M), a := Window(1, 1)];
    PairSize(a, b, Window(1, 1), Window(0, M));
    OpenAndUse(c, r3, b, W, M);
    var r4 := r3 + Repeat(Request(b, W), M);
    assert AfterRequests(c, r4) == map[b := Window(W, M), a := Window(1, 1)];
    PairSize(a, b, Window(1, 1), Window(W, M));
    Fill(c, r4, fillers, W, b);
    rs := r4 + Round(fillers, W);
  }

  lemma NoRequests(c: Limits, key: string, now: int)
    ensures AfterRequests(c, []) == map[] && Grants(c, [], key) == []
  {
  }

  lemma PairSize(a: string, b: string, x: Window, y: Window)
    requires a != b
    ensures |map[b := y, a := x]| == 2
  {
    PutSize(map[], b, y);
    PutSize(map[b := y], a, x);
    assert map[b := y, a := x] == map[b := y][a := x];
  }

  lemma FirstTwo(c: Limits, a: string, b: string)
    requires c.maxKeys >= 3 && a != b
    ensures AllowDevice(map[], c, Request(b, 0)) == (map[b := Window(0, 1)], true)
    ensures AllowDevice(map[b := Window(0, 1)], c, Request(a, 1)).0 == map[b := Window(0, 1), a := Window(1, 1)]
  {
    assert |map[b := Window(0, 1)]| == 1;
  }

  /**
   * With exactly maxKeys devices the bound is gone for every maxKeys from 3 on: one device reopening its window in a
   * full table hands another device a third window's worth within one interval.
   */
  lemma FullTableBreaksTheBound(c: Limits, a: string, b: string, fillers: seq<string>) returns (rs: seq<Request>)
    requires c.maxKeys == |fillers| + 2 >= 3 && c.maxPerWindow >= 2 && c.windowMs >= 3
    requires a != b && Distinct(fillers) && a !in fillers && b !in fillers
    ensures InOrder(rs) && (forall i :: 0 <= i < |rs| ==> rs[i].key in [a, b] + fillers)
    ensures CountIn(Grants(c, rs, b), c.windowMs - 1, c.windowMs - 1 + c.windowMs - 1) == 3 * c.maxPerWindow - 1 > 2 * PerWindow(c)
  {
    hide AfterRequests, Grants, AllowDevice;
    var W, M := c.windowMs, c.maxPerWindow;
    var full := FullTable(c, a, b, fillers);
    ReopenClears(c, full, a, W + 1, b);
    var cleared := full + [Request(a, W + 1)];
    assert |map[a := Window(W + 1, 1)]| == 1;
    OpenAndUse(c, cleared, b, W + 1, M);
    rs := cleared + Repeat(Request(b, W + 1), M);
    var lo, hi := W - 1, W - 1 + W - 1;
    RepeatCount([0], W - 1, M - 1, lo, hi);
    RepeatCount([0] + Repeat(W - 1, M - 1), W, M, lo, hi);
    RepeatCount([0] + Repeat(W - 1, M - 1) + Repeat(W, M), W + 1, M, lo, hi);
    OneMoreCount([], 0, lo, hi);
    assert [] + [0] == [0];
  }

  // ----- more devices than room --------------------------------------------------------------------

  /** Between two requests of one device there are at least `room` of others. */
  predicate Spread(rs: seq<Request>, room: nat) {
    forall i, j :: 0 <= i < j < |rs| && j - i <= room ==> rs[i].key != rs[j].key
  }

  /** The keys of the last r requests. */
  function LastKeys(rs: seq<Request>, r: nat): set<string>
    requires r <= |rs|
  {
    set i | |rs| - r <= i < |rs| :: rs[i].key
  }

  lemma OneMoreLastKey(rs: seq<Request>, q: Request, r: nat)
    requires r <= |rs|
    ensures LastKeys(rs + [q], r + 1) == LastKeys(rs, r) + {q.key} && LastKeys(rs + [q], 1) == {q.key}
  {
    var s := rs + [q];
    assert forall i :: 0 <= i < |rs| ==> s[i] == rs[i];
    assert s[|rs|] == q;
    forall k | k in LastKeys(rs, r) ensures k in LastKeys(s, r + 1) {
      var i :| |rs| - r <= i < |rs| && rs[i].key == k;
      assert s[i].key == k;
    }
  }

  /** In such a run the table holds exactly the last few devices, never the one that asks next. */
  lemma {:induction false} SpreadTable(c: Limits, rs: seq<Request>) returns (r: nat)
    requires Spread(rs, Room(c))
    ensures r <= |rs| && r <= Room(c)
    ensures AfterRequests(c, rs).Keys == LastKeys(rs, r) && |AfterRequests(c, rs)| == r
    decreases |rs|
  {
    if rs == [] {
      r := 0;
    } else {
      var n := |rs| - 1;
      var init, q := rs[..n], rs[n];
      assert rs == init + [q];
      SpreadPrefix(rs, Room(c));
      var before := SpreadTable(c, init);
      var w := AfterRequests(c, init);
      NotAmongLast(rs, Room(c), before);
      OneMoreLastKey(init, q, before);
      PutSize(w, q.key, Window(q.now, 1));
      PutSize(map[], q.key, Window(q.now, 1));
      r := if |w| >= c.maxKeys then 1 else before + 1;
      assert AfterRequests(c, rs).Keys == (if |w| >= c.maxKeys then {q.key} else w.Keys + {q.key});
    }
  }

  lemma SpreadPrefix(rs: seq<Request>, room: nat)
    requires rs != [] && Spread(rs, room)
    ensures Spread(rs[..|rs| - 1], room)
  {
    var n := |rs| - 1;
    assert forall i :: 0 <= i < n ==> rs[..n][i] == rs[i];
  }

  lemma NotAmongLast(rs: seq<Request>, room: nat, r: nat)
    requires rs != [] && Spread(rs, room) && r <= |rs| - 1 && r <= room
    ensures rs[|rs| - 1].key !in LastKeys(rs[..|rs| - 1], r)
  {
    var n := |rs| - 1;
    forall i | n - r <= i < n ensures rs[..n][i].key != rs[n].key {
      assert rs[..n][i] == rs[i];
    }
  }

  /** Nobody is ever refused in a run that spreads its devices wider than the table has room, at any rate. */
  lemma SpreadNeverRefused(c: Limits, rs: seq<Request>, i: nat)
    requires Spread(rs, Room(c)) && i < |rs|
    ensures Allowed(c, rs, i)
  {
    hide AfterRequests;
    var head := rs[..i + 1];
    assert forall j :: 0 <= j <= i ==> head[j] == rs[j];
    SpreadPrefix(head, Room(c));
    assert head[..i] == rs[..i];
    var r := SpreadTable(c, rs[..i]);
    NotAmongLast(head, Room(c), r);
  }

  function CountKey(rs: seq<Request>, key: string): nat
    decreases |rs|
  {
    if rs == [] then 0 else CountKey(rs[..|rs| - 1], key) + if rs[|rs| - 1].key == key then 1 else 0
  }

  predicate AllAt(rs: seq<Request>, now: int) { forall i :: 0 <= i < |rs| ==> rs[i].now == now }

  /** At one instant, a device that is never refused is granted each of its requests. */
  lemma {:induction false} GrantsAreCounted(c: Limits, rs: seq<Request>, key: string, now: int)
    requires Spread(rs, Room(c)) && AllAt(rs, now)
    ensures CountIn(Grants(c, rs, key), now, now) == CountKey(rs, key)
    decreases |rs|
  {
    hide AfterRequests, AllowDevice;
    if rs == [] {
    } else {
      var n := |rs| - 1;
      SpreadPrefix(rs, Room(c));
      GrantsAreCounted(c, rs[..n], key, now);
      SpreadNeverRefused(c, rs, n);
      var g := Grants(c, rs[..n], key);
      OneMoreCount(g, now, now, now);
      assert g + [] == g;
    }
  }

  /** One request of each device. */
  function Round(keys: seq<string>, now: int): seq<Request> {
    seq(|keys|, i requires 0 <= i < |keys| => Request(keys[i], now))
  }

  /** The devices take turns n times. */
  function Rounds(keys: seq<string>, n: nat, now: int): seq<Request>
    decreases n
  {
    if n == 0 then [] else Rounds(keys, n - 1, now) + Round(keys, now)
  }

  predicate Distinct(keys: seq<string>) { forall i, j :: 0 <= i < j < |keys| ==> keys[i] != keys[j] }

  lemma {:induction false} CountKeyAppend(a: seq<Request>, b: seq<Request>, key: string)
    ensures CountKey(a + b, key) == CountKey(a, key) + CountKey(b, key)
    decreases |b|
  {
    if b == [] {
      assert a + b == a;
    } else {
      CountKeyAppend(a, b[..|b| - 1], key);
      assert (a + b)[..|a + b| - 1] == a + b[..|b| - 1];
    }
  }

  lemma {:induction false} CountKeyInRound(keys: seq<string>, key: string, now: int)
    requires Distinct(keys)
    ensures CountKey(Round(keys, now), key) == if key in keys then 1 else 0
    decreases |keys|
  {
    if keys == [] {
    } else {
      var n := |keys| - 1;
      CountKeyInRound(keys[..n], key, now);
      assert Round(keys, now)[..n] == Round(keys[..n], now);
      assert keys == keys[..n] + [keys[n]];
      assert key in keys <==> key in keys[..n] || key == keys[n];
    }
  }

  /** Whole rounds of distinct devices, the last round last. */
  lemma {:induction false} RoundsFacts(keys: seq<string>, n: nat, now: int)
    requires Distinct(keys) && keys != []
    ensures var rs := Rounds(keys, n, now);
      && AllAt(rs, now) && Spread(rs, |keys| - 1)
      && (n > 0 ==> |rs| >= |keys| && rs[|rs| - |keys|..] == Round(keys, now))
    decreases n
  {
    if n == 0 {
    } else {
      RoundsFacts(keys, n - 1, now);
      JoinRounds(Rounds(keys, n - 1, now), keys, now);
    }
  }

  lemma JoinRounds(a: seq<Request>, keys: seq<string>, now: int)
    requires Distinct(keys) && keys != [] && AllAt(a, now) && Spread(a, |keys| - 1)
    requires a == [] || (|a| >= |keys| && a[|a| - |keys|..] == Round(keys, now))
    ensures var rs := a + Round(keys, now);
      AllAt(rs, now) && Spread(rs, |keys| - 1) && |rs| >= |keys| && rs[|rs| - |keys|..] == Round(keys, now)
  {
    var b, m := Round(keys, now), |keys|;
    var rs := a + b;
    forall i, j | 0 <= i < j < |rs| && j - i <= m - 1 ensures rs[i].key != rs[j].key {
      if i >= |a| {
        assert rs[i] == b[i - |a|] && rs[j] == b[j - |a|];
      } else if j >= |a| {
        var x := i - (|a| - m);
        assert a[|a| - m..][x] == a[i] && b[j - |a|].key == keys[j - |a|];
      }
    }
  }

  /**
   * One device more than the table has room for, taking turns at one instant: each of them is granted every time,
   * n times in n rounds for every n, whatever the limit per window.
   */
  lemma ClearingForgets(c: Limits, keys: seq<string>, n: nat, now: int, key: string)
    requires |keys| == Room(c) + 1 && Distinct(keys) && key in keys
    ensures CountIn(Grants(c, Rounds(keys, n, now), key), now, now) == n
  {
    RoundsFacts(keys, n, now);
    GrantsAreCounted(c, Rounds(keys, n, now), key, now);
    RoundsCount(keys, n, now, key);
  }

  lemma {:induction false} RoundsCount(keys: seq<string>, n: nat, now: int, key: string)
    requires Distinct(keys) && key in keys
    ensures CountKey(Rounds(keys, n, now), key) == n
    decreases n
  {
    if n == 0 {
    } else {
      RoundsCount(keys, n - 1, now, key);
      CountKeyAppend(Rounds(keys, n - 1, now), Round(keys, now), key);
      CountKeyInRound(keys, key, now);
    }
  }
}
