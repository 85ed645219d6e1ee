/** Restart intensity and failure handling of a supervisor (src/actor/supervisor.c). */
module Supervisor {

  datatype Strategy = Restart | Stop | Escalate

  /** A child and the id of its current actor, 0 if it has none. */
  datatype Child = Child(strategy: Strategy, id: nat)

  /** Newest child first; `window` is the window length in nanoseconds; `parent` says whether there
      is a supervisor to escalate to. */
  datatype Sup = Sup(
    children: seq<Child>, count: nat, start: nat, max: nat, window: nat, root: bool, parent: bool,
    terminated: bool, escalations: nat)

  // ---- specification ----

  /** The counter once the clock has been read: a fresh window if the old one is over or unused. */
  function Windowed(s: Sup, now: nat): (w: Sup)
    ensures w.count <= s.count && w == s.(count := w.count, start := w.start)
  {
    if s.count == 0 then s.(start := now)
    else if now > s.start + s.window then s.(count := 0, start := now)
    else s
  }

  function StopAll(children: seq<Child>): (r: seq<Child>)
    ensures |r| == |children| && forall i :: 0 <= i < |r| ==> r[i] == children[i].(id := 0)
  {
    if children == [] then [] else [children[0].(id := 0)] + StopAll(children[1..])
  }

  /** check_intensity: may a child be restarted now? */
  function Allowed(s: Sup, now: nat): bool { Windowed(s, now).count < s.max }

  /** Escalation notices sent after one more: without a parent it is dropped. */
  function Escalated(s: Sup): nat { if s.parent then s.escalations + 1 else s.escalations }

  /** Its effect when it may not: the root supervisor starts over, any other one stops. */
  function Exceeded(s: Sup, now: nat): Sup
  {
    var w := Windowed(s, now);
    if s.root then w.(count := 0, start := now)
    else w.(count := w.count + 1, children := StopAll(s.children), terminated := true, escalations := Escalated(s))
  }

  function Counted(s: Sup, now: nat): Sup
  {
    var w := Windowed(s, now);
    w.(count := w.count + 1)
  }

  /** The first child with the given id. */
  function FindChild(children: seq<Child>, id: nat): (i: nat)
    ensures i <= |children| && (i < |children| ==> children[i].id == id)
    ensures forall k :: 0 <= k < i ==> children[k].id != id
  {
    if children == [] || children[0].id == id then 0 else 1 + FindChild(children[1..], id)
  }

  /** sta_supervisor_handle_failure; newId is the id of the replacement actor, 0 if none can be
      created. */
  function Failure(s: Sup, id: nat, now: nat, newId: nat): Sup
  {
    var i := FindChild(s.children, id);
    if i == |s.children| then s
    else
      match s.children[i].strategy
      case Restart =>
        if !Allowed(s, now) then Exceeded(s, now)
        else Counted(s, now).(children := s.children[i := s.children[i].(id := newId)])
      case Stop => s.(children := s.children[i := s.children[i].(id := 0)])
      case Escalate => s.(children := s.children[i := s.children[i].(id := 0)], escalations := Escalated(s))
  }

  function Added(s: Sup, strategy: Strategy, id: nat): Sup { s.(children := [Child(strategy, id)] + s.children) }

  // ---- the supervisor ----

  class Supervisor {
    var children: seq<Child>
    var restartCount: nat
    var windowStart: nat
    var terminated: bool
    var escalations: nat
    const maxRestarts: nat
    const window: nat
    const root: bool
    const parent: bool

    ghost function Value(): Sup
      reads this
    {
      Sup(children, restartCount, windowStart, maxRestarts, window, root, parent, terminated, escalations)
    }

    constructor (maxRestarts: nat, maxSeconds: nat, root: bool, parent: bool)
      ensures Value() == Sup([], 0, 0, maxRestarts, maxSeconds * 1_000_000_000, root, parent, false, 0)
    {
      this.maxRestarts, this.window, this.root, this.parent := maxRestarts, maxSeconds * 1_000_000_000, root, parent;
      children, restartCount, windowStart, terminated, escalations := [], 0, 0, false, 0;
    }

    method AddChild(strategy: Strategy, id: nat)
      modifies this
      ensures Value() == Added(old(Value()), strategy, id)
    {
      children := [Child(strategy, id)] + children;
    }

    method FindChildById(id: nat) returns (i: nat)
      ensures i == FindChild(children, id)
    {
      i := 0;
      while i < |children|
        invariant 0 <= i <= |children| && FindChild(children, id) == i + FindChild(children[i..], id)
      {
        if children[i].id == id { return; }
        i := i + 1;
      }
    }

    method TerminateAllChildren()
      modifies `children
      ensures children == StopAll(old(children))
    {
      var i := 0;
      while i < |children|
        invariant 0 <= i <= |children| == |old(children)|
        invariant forall k :: 0 <= k < i ==> children[k] == old(children)[k].(id := 0)
        invariant forall k :: i <= k < |children| ==> children[k] == old(children)[k]
      {
        children := children[i := children[i].(id := 0)];
        i := i + 1;
      }
    }

    /** The clock is monotone, so it does not run behind the start of the window. */
    method CheckIntensity(now: nat) returns (ok: bool)
      requires restartCount > 0 ==> windowStart <= now
      modifies this
      ensures ok == Allowed(old(Value()), now)
      ensures Value() == if ok then Counted(old(Value()), now) else Exceeded(old(Value()), now)
    {
      if restartCount == 0 { windowStart := now; }
      var elapsed := now - windowStart;
      if elapsed > window {
        restartCount := 0;
        windowStart := now;
      }
      restartCount := restartCount + 1;
      if restartCount > maxRestarts {
        if root {
          restartCount := 0;
          windowStart := now;
          return false;
        }
        TerminateAllChildren();
        if parent { escalations := escalations + 1; }
        terminated := true;
        return false;
      }
      ok := true;
    }

    method HandleFailure(id: nat, now: nat, newId: nat)
      requires restartCount > 0 ==> windowStart <= now
      modifies this
      ensures Value() == Failure(old(Value()), id, now, newId)
    {
      var i := FindChildById(id);
      if i == |children| { return; }
      match children[i].strategy {
        case Restart =>
          var ok := CheckIntensity(now);
          if ok { children := children[i := children[i].(id := newId)]; }
        case Stop => children := children[i := children[i].(id := 0)];
        case Escalate =>
          children := children[i := children[i].(id := 0)];
          if parent { escalations := escalations + 1; }
      }
    }
  }

  // ---- runs ----

  datatype Event = Failed(id: nat, now: nat, newId: nat) | Add(strategy: Strategy, id: nat)

  function Apply(s: Sup, e: Event): Sup
  {
    match e
    case Failed(id, now, newId) => Failure(s, id, now, newId)
    case Add(strategy, id) => Added(s, strategy, id)
  }

  ghost function Run(s: Sup, es: seq<Event>): Sup
    decreases |es|
  {
    if es == [] then s else Run(Apply(s, es[0]), es[1..])
  }

  /** The clock does not run backwards. */
  ghost predicate Clocked(es: seq<Event>, from: nat)
    decreases |es|
  {
    es == [] || (if es[0].Failed? then es[0].now >= from && Clocked(es[1..], es[0].now) else Clocked(es[1..], from))
  }

  predicate Restarts(s: Sup, e: Event)
  {
    e.Failed? && var i := FindChild(s.children, e.id);
                 i < |s.children| && s.children[i].strategy == Restart && Allowed(s, e.now)
  }

  /** When the restarts of a run were permitted. */
  ghost function RestartTimes(s: Sup, es: seq<Event>): seq<nat>
    decreases |es|
  {
    if es == [] then []
    else (if Restarts(s, es[0]) then [es[0].now] else []) + RestartTimes(Apply(s, es[0]), es[1..])
  }

  function Within(p: seq<nat>, a: nat, b: nat): nat
  {
    if p == [] then 0 else Within(p[..|p| - 1], a, b) + (if a <= p[|p| - 1] <= b then 1 else 0)
  }

  // ---- the intensity bound ----

  ghost predicate Sorted(p: seq<nat>) { forall i, k :: 0 <= i < k < |p| ==> p[i] <= p[k] }

  /** n + 1 restarts in a row take longer than w. */
  ghost predicate Spread(p: seq<nat>, n: nat, w: nat) { forall i, k :: 0 <= i && k == i + n < |p| ==> p[k] > p[i] + w }

  function Limit(s: Sup): nat { if s.max == 0 then 0 else 2 * s.max - 1 }

  /** Permitted restarts of the current window. */
  function Current(s: Sup): nat { if s.count <= s.max then s.count else s.max }

  /** The restarts p so far: the last ones belong to the current window, the first of them opened
      it, at most `max` before them belong to the window before, which its first one opened at
      `prev`, and any others are older still. */
  ghost predicate Log(s: Sup, p: seq<nat>, before: nat, prev: nat, now: nat)
  {
    var n, m := |p| - Current(s), |p| - Current(s) - before;
    && !s.root && 0 <= m && before <= s.max
    && (s.count == 0 || s.max == 0 ==> p == []) && (s.count > 0 ==> s.start <= now)
    && Sorted(p) && Spread(p, Limit(s), s.window)
    && (forall k :: 0 <= k < |p| ==> p[k] <= now)
    && Placed(p, n, m, s.start, prev, s.window)
  }

  lemma SpreadPush(p: seq<nat>, n: nat, w: nat, now: nat)
    requires Spread(p, n, w) && n > 0 && (|p| >= n ==> p[|p| - n] + w < now)
    ensures Spread(p + [now], n, w)
  {
  }

  /** The part of the log that places restarts in windows. */
  ghost predicate Placed(p: seq<nat>, n: int, m: int, start: nat, prev: nat, window: nat)
  {
    && (forall k :: 0 <= k <= n && k < |p| ==> p[k] <= start)
    && (forall k :: 0 <= k <= m && k < n && k < |p| ==> p[k] <= prev)
    && (n > 0 ==> prev + window < start)
  }

  /** A restart in the same window. */
  lemma LogSame(s: Sup, p: seq<nat>, before: nat, prev: nat, t: nat, now: nat)
    requires Log(s, p, before, prev, t) && t <= now && Allowed(s, now) && s.count > 0 && now <= s.start + s.window
    ensures Log(Counted(s, now), p + [now], before, prev, now)
  {
    hide Spread;
    var i := |p| - Limit(s);
    assert i <= |p| - Current(s) - before;
    if i >= 0 { assert p[i] <= prev; }
    SpreadPush(p, Limit(s), s.window, now);
  }

  /** A restart that opens a window. */
  lemma LogFresh(s: Sup, p: seq<nat>, before: nat, prev: nat, t: nat, now: nat)
    requires Log(s, p, before, prev, t) && t <= now && Allowed(s, now) && s.count > 0 && now > s.start + s.window
    ensures Log(Counted(s, now), p + [now], Current(s), s.start, now)
  {
    hide Spread;
    var i := |p| - Limit(s);
    assert i <= |p| - Current(s);
    if i >= 0 { assert p[i] <= s.start; }
    SpreadPush(p, Limit(s), s.window, now);
  }

  /** What the log looks like after one event. */
  lemma LogStep(s: Sup, p: seq<nat>, before: nat, prev: nat, t: nat, e: Event) returns (before': nat, prev': nat, t': nat)
    requires Log(s, p, before, prev, t) && (e.Failed? ==> t <= e.now)
    ensures t' == if e.Failed? then e.now else t
    ensures Log(Apply(s, e), p + (if Restarts(s, e) then [e.now] else []), before', prev', t')
  {
    hide FindChild, StopAll, Spread, Sorted, Placed;
    before', prev', t' := before, prev, if e.Failed? then e.now else t;
    assert p + [] == p;
    if Restarts(s, e) {
      var c := Counted(s, e.now);
      if s.count > 0 && e.now <= s.start + s.window {
        LogSame(s, p, before, prev, t, e.now);
      } else if s.count > 0 {
        LogFresh(s, p, before, prev, t, e.now);
        before', prev' := Current(s), s.start;
      } else {
        before', prev' := 0, 0;
        LogOpening(s, e.now);
        assert p + [e.now] == [e.now];
      }
      LogChildren(c, Apply(s, e), p + [e.now], before', prev', t');
    } else if e.Failed? {
      LogExceeded(s, p, before, prev, t, e);
    }
  }

  lemma LogOpening(s: Sup, now: nat)
    requires !s.root && s.count == 0 && Allowed(s, now)
    ensures Log(Counted(s, now), [now], 0, 0, now)
  {
  }

  /** The log does not depend on the children. */
  lemma LogChildren(s: Sup, s': Sup, p: seq<nat>, before: nat, prev: nat, t: nat)
    requires Log(s, p, before, prev, t)
    requires s'.count == s.count && s'.start == s.start && s'.max == s.max && s'.window == s.window && s'.root == s.root
    ensures Log(s', p, before, prev, t)
  {
    hide Spread, Sorted, Placed;
  }

  lemma LogExceeded(s: Sup, p: seq<nat>, before: nat, prev: nat, t: nat, e: Event)
    requires Log(s, p, before, prev, t) && e.Failed? && t <= e.now && !Restarts(s, e)
    ensures Log(Apply(s, e), p, before, prev, e.now)
  {
    hide FindChild, StopAll, Spread, Sorted;
  }

  lemma {:induction false} RunSpread(s: Sup, es: seq<Event>, p: seq<nat>, before: nat, prev: nat, t: nat)
    requires Log(s, p, before, prev, t) && Clocked(es, t)
    ensures Sorted(p + RestartTimes(s, es)) && Spread(p + RestartTimes(s, es), Limit(s), s.window)
    decreases |es|
  {
    hide Log, Apply, Allowed, FindChild, Sorted, Spread, Limit;
    LogIs(s, p, before, prev, t);
    if es == [] {
      assert p + [] == p;
    } else {
      var e := es[0];
      var q := p + (if Restarts(s, e) then [e.now] else []);
      var b, v, u := LogStep(s, p, before, prev, t, e);
      SameLimits(s, e);
      RunSpread(Apply(s, e), es[1..], q, b, v, u);
      assert q + RestartTimes(Apply(s, e), es[1..]) == p + RestartTimes(s, es);
    }
  }

  lemma LogIs(s: Sup, p: seq<nat>, before: nat, prev: nat, t: nat)
    requires Log(s, p, before, prev, t)
    ensures Sorted(p) && Spread(p, Limit(s), s.window)
  {
  }

  lemma SameLimits(s: Sup, e: Event)
    ensures Limit(Apply(s, e)) == Limit(s) && Apply(s, e).max == s.max && Apply(s, e).window == s.window && Apply(s, e).root == s.root
  {
  }

  lemma {:induction false} WithinSize(p: seq<nat>, a: nat, b: nat, n: nat)
    requires n <= |p| && forall i :: 0 <= i < n ==> p[i] < a
    ensures Within(p, a, b) <= |p| - n
    decreases |p|
  {
    if n < |p| { WithinSize(p[..|p| - 1], a, b, n); }
    else if p != [] { WithinSize(p[..|p| - 1], a, b, n - 1); }
  }

  lemma {:induction false} SpreadBounds(p: seq<nat>, n: nat, w: nat, a: nat, b: nat)
    requires Sorted(p) && Spread(p, n, w) && b <= a + w
    ensures Within(p, a, b) <= n
    decreases |p|
  {
    if p != [] {
      var m := |p| - 1;
      if a <= p[m] <= b {
        var i := m - n;
        if i >= 0 {
          assert p[i] < a;
          WithinSize(p, a, b, i + 1);
        } else {
          WithinSize(p, a, b, 0);
        }
      } else {
        SpreadBounds(p[..m], n, w, a, b);
      }
    }
  }

  /** However failures arrive, no interval as long as the window sees twice the permitted number
      of restarts. */
  lemma IntensityBound(s: Sup, es: seq<Event>, a: nat, b: nat)
    requires s.count == 0 && !s.root && Clocked(es, 0) && b <= a + s.window
    ensures Within(RestartTimes(s, es), a, b) <= if s.max == 0 then 0 else 2 * s.max - 1
  {
    assert Log(s, [], 0, 0, 0);
    RunSpread(s, es, [], 0, 0, 0);
    assert [] + RestartTimes(s, es) == RestartTimes(s, es);
    SpreadBounds(RestartTimes(s, es), Limit(s), s.window, a, b);
  }

  // ---- the bound is reached ----

  function Repeat<T>(x: T, n: nat): seq<T> { if n == 0 then [] else [x] + Repeat(x, n - 1) }

  /** n failures at time t while the window has room for them. */
  lemma {:induction false} Burst(s: Sup, id: nat, t: nat, n: nat, es: seq<Event>)
    requires s.children == [Child(Restart, id)] && s.count > 0 && t <= s.start + s.window && s.count + n <= s.max
    ensures RestartTimes(s, Repeat(Failed(id, t, id), n) + es) == Repeat(t, n) + RestartTimes(s.(count := s.count + n), es)
    decreases n
  {
    hide RestartTimes, Allowed;
    var f, end := Failed(id, t, id), RestartTimes(s.(count := s.count + n), es);
    if n == 0 {
      assert [] + es == es && [] + end == end;
    } else {
      var rest := Repeat(f, n - 1) + es;
      assert Repeat(f, n) + es == [f] + rest;
      RoomFor(s, t);
      First(s, f, rest);
      Burst(Counted(s, t), id, t, n - 1, es);
      assert [t] + (Repeat(t, n - 1) + end) == Repeat(t, n) + end;
    }
  }

  lemma RoomFor(s: Sup, t: nat)
    requires 0 < s.count < s.max && t <= s.start + s.window
    ensures Allowed(s, t) && Counted(s, t) == s.(count := s.count + 1)
  {
  }

  lemma {:induction false} BurstClocked(id: nat, t: nat, n: nat, es: seq<Event>, from: nat)
    requires from <= t && Clocked(es, t)
    ensures Clocked(Repeat(Failed(id, t, id), n) + es, from)
    decreases n
  {
    if n == 0 {
      assert [] + es == es;
      ClockedLater(es, t);
    } else {
      var f := Failed(id, t, id);
      BurstClocked(id, t, n - 1, es, t);
      assert Repeat(f, n) + es == [f] + (Repeat(f, n - 1) + es);
      ClockedFirst(f, Repeat(f, n - 1) + es, from);
    }
  }

  lemma {:induction false} WithinJoin(p: seq<nat>, q: seq<nat>, a: nat, b: nat)
    ensures Within(p + q, a, b) == Within(p, a, b) + Within(q, a, b)
    decreases |q|
  {
    if q == [] {
      assert p + q == p;
    } else {
      WithinJoin(p, q[..|q| - 1], a, b);
      assert (p + q)[..|p + q| - 1] == p + q[..|q| - 1];
    }
  }

  lemma {:induction false} WithinRepeat(t: nat, n: nat, a: nat, b: nat)
    requires a <= t <= b
    ensures Within(Repeat(t, n), a, b) == n
  {
    if n > 0 {
      WithinRepeat(t, n - 1, a, b);
      WithinJoin([t], Repeat(t, n - 1), a, b);
    }
  }

  /** One restart at 0, the rest of the window's at its last instant w, and a full window more an
      instant later: 2 * max - 1 restarts at w and w + 1. */
  lemma BoundIsReached(s: Sup, id: nat) returns (es: seq<Event>)
    requires s.children == [Child(Restart, id)] && s.count == 0 && !s.root && s.max >= 1 && s.window >= 1
    ensures Clocked(es, 0) && Within(RestartTimes(s, es), s.window, s.window + 1) == 2 * s.max - 1
  {
    hide Clocked, RestartTimes, Within, Repeat;
    var w, m := s.window, s.max;
    var last := Repeat(Failed(id, w + 1, id), m - 1);
    var opening := [Failed(id, w + 1, id)] + (last + []);
    var fill := Repeat(Failed(id, w, id), m - 1) + opening;
    es := [Failed(id, 0, id)] + fill;
    var s1 := s.(count := 1, start := 0);
    var s2 := s1.(count := 1 + (m - 1));
    var s3 := s2.(count := 1, start := w + 1);
    First(s, Failed(id, 0, id), fill);
    Burst(s1, id, w, m - 1, opening);
    First(s2, Failed(id, w + 1, id), last + []);
    Burst(s3, id, w + 1, m - 1, []);
    NoEvents(s3.(count := s3.count + (m - 1)));
    NoneClocked(w + 1);
    BurstClocked(id, w + 1, m - 1, [], w + 1);
    ClockedFirst(Failed(id, w + 1, id), last + [], w);
    BurstClocked(id, w, m - 1, opening, 0);
    ClockedFirst(Failed(id, 0, id), fill, 0);
    var a, b := Repeat(w, m - 1), Repeat(w + 1, m - 1);
    assert RestartTimes(s, es) == [0] + (a + ([w + 1] + (b + [])));
    WithinJoin([0], a + ([w + 1] + (b + [])), w, w + 1);
    WithinJoin(a, [w + 1] + (b + []), w, w + 1);
    WithinJoin([w + 1], b + [], w, w + 1);
    WithinJoin(b, [], w, w + 1);
    WithinRepeat(w, m - 1, w, w + 1);
    WithinRepeat(w + 1, m - 1, w, w + 1);
    WithinSmall(w);
  }

  lemma First(s: Sup, e: Event, es: seq<Event>)
    requires e.Failed? && s.children == [Child(Restart, e.id)] && e.newId == e.id && Allowed(s, e.now)
    ensures RestartTimes(s, [e] + es) == [e.now] + RestartTimes(Counted(s, e.now), es)
  {
    assert ([e] + es)[1..] == es;
    assert Apply(s, e) == Counted(s, e.now);
  }

  lemma NoEvents(s: Sup)
    ensures RestartTimes(s, []) == []
  {
  }

  lemma NoneClocked(from: nat)
    ensures Clocked([], from)
  {
  }

  lemma ClockedFirst(e: Event, es: seq<Event>, from: nat)
    requires e.Failed? && e.now >= from && Clocked(es, e.now)
    ensures Clocked([e] + es, from)
  {
    assert ([e] + es)[1..] == es;
  }

  /** An earlier start of the clock does no harm. */
  lemma {:induction false} ClockedLater(es: seq<Event>, from: nat)
    requires Clocked(es, from)
    ensures forall t: nat :: t <= from ==> Clocked(es, t)
    decreases |es|
  {
    if es != [] && !es[0].Failed? { ClockedLater(es[1..], from); }
  }

  lemma WithinSmall(w: nat)
    requires w >= 1
    ensures Within([0], w, w + 1) == 0 && Within([w + 1], w, w + 1) == 1 && Within([], w, w + 1) == 0
  {
  }

  // ---- after the intensity was exceeded ----

  /** The k oldest children have no actor. */
  ghost predicate Stopped(s: Sup, k: nat)
  {
    k <= |s.children| && forall i :: |s.children| - k <= i < |s.children| ==> s.children[i].id == 0
  }

  lemma ExceedingStopsAll(s: Sup, id: nat, now: nat, newId: nat)
    requires var i := FindChild(s.children, id); i < |s.children| && s.children[i].strategy == Restart
    requires !s.root && !Allowed(s, now)
    ensures var t := Failure(s, id, now, newId); t.terminated && |t.children| == |s.children| && Stopped(t, |s.children|)
  {
  }

  /** Whether a notification brings back a stopped child, exactly: it must carry the id 0, the
      first child without an actor must be one of those, to be restarted, and the counter must
      allow it. */
  lemma StoppedRestartsIff(s: Sup, k: nat, id: nat, now: nat, newId: nat)
    requires Stopped(s, k) && newId != 0 && !s.root
    ensures !Stopped(Failure(s, id, now, newId), k)
            <==> (var i := FindChild(s.children, 0);
                  id == 0 && |s.children| - k <= i < |s.children| && s.children[i].strategy == Restart && Allowed(s, now))
  {
    hide Windowed;
    var i := FindChild(s.children, id);
    var t := Failure(s, id, now, newId);
    if i < |s.children| && s.children[i].strategy == Restart && Allowed(s, now) {
      assert t.children[i].id == newId;
    }
  }

  /** Actor ids are never 0, so no later notification restarts a child that existed. */
  lemma {:induction false} StoppedForGood(s: Sup, es: seq<Event>, k: nat)
    requires Stopped(s, k) && forall i :: 0 <= i < |es| && es[i].Failed? ==> es[i].id != 0
    ensures Stopped(Run(s, es), k)
    decreases |es|
  {
    if es != [] {
      var e := es[0];
      var i := if e.Failed? then FindChild(s.children, e.id) else 0;
      assert e.Failed? && i < |s.children| ==> s.children[i].id != 0;
      assert Stopped(Apply(s, e), k);
      StoppedForGood(Apply(s, e), es[1..], k);
    }
  }
}
