/** The per-key sliding-window limiter, compacting its list in place. */
module RateLimiting {

  /** The admissions that still count after the cutoff, in order. */
  function After(times: seq<int>, cutoff: int): (kept: seq<int>)
    ensures |kept| <= |times|
  {
    if times == [] then []
    else
      var n := |times| - 1;
      After(times[..n], cutoff) + if times[n] > cutoff then [times[n]] else []
  }

  /** Moves the kept times to the front of their own array. */
  method Compact(buf: array<int>, n: nat, cutoff: int) returns (kept: nat)
    requires n <= buf.Length
    modifies buf
    ensures kept <= n && buf[..kept] == After(old(buf[..n]), cutoff)
  {
    kept := 0;
    ghost var was := buf[..n];
    for j := 0 to n
      invariant kept <= j && buf[..kept] == After(was[..j], cutoff)
      invariant forall i | j <= i < n :: buf[i] == was[i]
    {
      assert was[..j + 1][..j] == was[..j];
      var t := buf[j];
      if t > cutoff {
        buf[kept] := t;
        kept := kept + 1;
      }
    }
    assert was[..n] == was;
  }

  // ---- what an admission log satisfies ----

  ghost predicate Ascends(log: seq<int>) {
    forall i, j | 0 <= i <= j < |log| :: log[i] <= log[j]
  }

  /** Two admissions less than a window apart have fewer than `limit` steps between them. */
  ghost predicate Spaced(log: seq<int>, limit: nat, window: int) {
    forall i, j | 0 <= i <= j < |log| && log[j] - log[i] < window :: j - i < limit
  }

  ghost function Within(log: seq<int>, from: int, window: int): set<nat> {
    set i: nat | i < |log| && from <= log[i] < from + window
  }

  lemma {:induction false} First(log: seq<int>, found: set<nat>) returns (a: nat)
    requires found != {} && forall i | i in found :: i < |log|
    ensures a in found && forall i | i in found :: a <= i
  {
    a :| a in found;
    if found != {a} {
      assert found == found - {a} + {a};
      var b := First(log, found - {a});
      if b < a {
        a := b;
      }
    }
  }

  lemma {:induction false} Bounded(found: set<nat>, a: nat, n: nat)
    requires forall i | i in found :: a <= i < a + n
    ensures |found| <= n
    decreases n
  {
    if n == 0 {
      assert found == {};
    } else {
      Bounded(found - {a + n - 1}, a, n - 1);
    }
  }

  /** No half-open interval of one window holds more than `limit` admissions. */
  lemma IntervalBound(log: seq<int>, limit: nat, window: int, from: int)
    requires Ascends(log) && Spaced(log, limit, window) && limit > 0
    ensures |Within(log, from, window)| <= limit
  {
    var found := Within(log, from, window);
    if found != {} {
      var a := First(log, found);
      forall j | j in found
        ensures a <= j < a + limit
      {
        assert log[j] - log[a] < window;
      }
      Bounded(found, a, limit);
    }
  }

  /** The list holds the log's admissions but those a window old by the last look at the clock. */
  ghost predicate Follows(log: seq<int>, times: seq<int>, clock: int, limit: nat, window: int) {
    && |times| <= |log| && times == log[|log| - |times|..]
    && (forall i | 0 <= i < |log| - |times| :: log[i] <= clock - window)
    && (forall i | 0 <= i < |log| :: log[i] <= clock)
    && Ascends(log) && Spaced(log, limit, window) && |times| <= limit
  }

  /** How many admissions lie in the window that ends now. */
  ghost function Recent(log: seq<int>, now: int, window: int): nat {
    |After(log, now - window)|
  }

  /** Those are the admissions less than a window old. */
  lemma {:induction false} RecentExactly(log: seq<int>, now: int, window: int)
    ensures Recent(log, now, window) == |set i | 0 <= i < |log| && now - log[i] < window|
  {
    var found := set i | 0 <= i < |log| && now - log[i] < window;
    if log == [] {
      assert found == {};
    } else {
      var n := |log| - 1;
      RecentExactly(log[..n], now, window);
      var had := set i | 0 <= i < n && now - log[..n][i] < window;
      assert found == had + if now - log[n] < window then {n} else {};
      assert n !in had;
    }
  }

  /** Where the times first pass the cutoff. */
  lemma {:induction false} SplitPoint(times: seq<int>, cutoff: int, low: nat) returns (d: nat)
    requires Ascends(times) && low <= |times| && forall i | 0 <= i < low :: times[i] <= cutoff
    ensures low <= d <= |times|
    ensures (forall i | 0 <= i < d :: times[i] <= cutoff) && forall i | d <= i < |times| :: times[i] > cutoff
  {
    var n := |times| - 1;
    if times == [] || times[n] <= cutoff {
      d := |times|;
    } else {
      d := SplitPoint(times[..n], cutoff, low);
      assert forall i | 0 <= i < n :: times[..n][i] == times[i];
    }
  }

  lemma {:induction false} AfterFrom(times: seq<int>, cutoff: int, d: nat)
    requires d <= |times| && forall i | 0 <= i < d :: times[i] <= cutoff
    requires forall i | d <= i < |times| :: times[i] > cutoff
    ensures After(times, cutoff) == times[d..]
  {
    if times != [] {
      var n := |times| - 1;
      if d == |times| {
        AfterFrom(times[..n], cutoff, n);
      } else {
        AfterFrom(times[..n], cutoff, d);
        assert times[d..] == times[..n][d..] + [times[n]];
      }
    }
  }

  /** Looking at the list is looking at the log. */
  lemma SameRecent(log: seq<int>, times: seq<int>, cutoff: int) returns (d: nat)
    requires |times| <= |log| && times == log[|log| - |times|..] && Ascends(log)
    requires forall i | 0 <= i < |log| - |times| :: log[i] <= cutoff
    ensures d <= |log| && After(times, cutoff) == After(log, cutoff) == log[d..]
    ensures forall i | 0 <= i < d :: log[i] <= cutoff
  {
    var gone := |log| - |times|;
    d := SplitPoint(log, cutoff, gone);
    AfterFrom(log, cutoff, d);
    AfterFrom(times, cutoff, d - gone);
    assert times[d - gone..] == log[d..];
  }

  /** Compacting the list keeps it in step with the log. */
  lemma Compacted(log: seq<int>, times: seq<int>, clock: int, limit: nat, window: int, now: int)
    requires Follows(log, times, clock, limit, window) && now >= clock
    ensures After(times, now - window) == After(log, now - window)
    ensures Follows(log, After(times, now - window), now, limit, window)
  {
    var d := SameRecent(log, times, now - window);
  }

  lemma Later(log: seq<int>, times: seq<int>, clock: int, limit: nat, window: int, now: int)
    requires Follows(log, times, clock, limit, window) && now >= clock
    ensures Follows(log, times, now, limit, window)
  {
  }

  /** One more admission, when fewer than `limit` are recent. */
  lemma Admitted(log: seq<int>, times: seq<int>, limit: nat, window: int, now: int)
    requires Follows(log, times, now, limit, window) && |times| < limit
    ensures Follows(log + [now], times + [now], now, limit, window)
  {
    var more := log + [now];
    forall i, j | 0 <= i <= j < |more| && more[j] - more[i] < window
      ensures j - i < limit
    {
      if j == |log| && i < |log| {
        assert log[i] > now - window;
        assert i >= |log| - |times|;
      }
    }
    assert (times + [now]) == more[|more| - |times| - 1..];
  }

  function Entry(m: map<string, seq<int>>, key: string): seq<int> {
    if key in m then m[key] else []
  }

  /** The lists after one call: compacted, and longer by one when it is allowed. */
  function Changed(lists: map<string, seq<int>>, key: string, cutoff: int, ok: bool, now: int): map<string, seq<int>> {
    lists[key := After(Entry(lists, key), cutoff) + if ok then [now] else []]
  }

  lemma PutTwice(lists: map<string, seq<int>>, key: string, kept: seq<int>, now: int)
    ensures lists[key := kept][key := kept + [now]] == lists[key := kept + [now]]
    ensures kept + [] == kept
  {
  }

  /** A larger array with the same first n times. */
  method Copy(buf: array<int>, n: nat) returns (bigger: array<int>)
    requires n <= buf.Length
    ensures fresh(bigger) && n < bigger.Length && bigger[..n] == buf[..n]
  {
    bigger := new int[2 * n + 1];
    for i := 0 to n
      invariant bigger[..i] == buf[..i]
    {
      bigger[i] := buf[i];
    }
  }

  ghost predicate InStepAt(
    lists: map<string, seq<int>>, log: map<string, seq<int>>, clock: int, limit: nat, window: int, k: string)
  {
    (k in lists <==> k in log) && (k in lists ==> Follows(log[k], lists[k], clock, limit, window))
  }

  /** Every key's list follows its log. */
  ghost predicate InStep(
    lists: map<string, seq<int>>, log: map<string, seq<int>>, clock: int, limit: nat, window: int)
  {
    forall k {:trigger InStepAt(lists, log, clock, limit, window, k)} :: InStepAt(lists, log, clock, limit, window, k)
  }

  lemma Others(lists: map<string, seq<int>>, log: map<string, seq<int>>, clock: int, limit: nat, window: int, now: int,
               key: string, list: seq<int>, entries: seq<int>)
    requires InStep(lists, log, clock, limit, window) && now >= clock && Follows(entries, list, now, limit, window)
    ensures InStep(lists[key := list], log[key := entries], now, limit, window)
  {
    forall k {:trigger InStepAt(lists[key := list], log[key := entries], now, limit, window, k)}
      ensures InStepAt(lists[key := list], log[key := entries], now, limit, window, k)
    {
      assert InStepAt(lists, log, clock, limit, window, k);
      if k in lists {
        Later(log[k], lists[k], clock, limit, window, now);
      }
    }
  }

  /** What a call leaves: every key in step, and no interval with more than `limit` admissions. */
  ghost predicate Decision(lists: map<string, seq<int>>, log: map<string, seq<int>>, limit: nat, window: int, now: int,
                           key: string, ok: bool)
  {
    var after := Changed(lists, key, now - window, ok, now);
    var entries := Entry(log, key) + if ok then [now] else [];
    && InStep(after, log[key := entries], now, limit, window) && |after[key]| <= limit
    && forall from {:trigger Within(entries, from, window)} :: |Within(entries, from, window)| <= limit
  }

  /** One call decides by what the log says. */
  lemma Decided(lists: map<string, seq<int>>, log: map<string, seq<int>>, clock: int, limit: nat, window: int, now: int,
                key: string, ok: bool)
    requires InStep(lists, log, clock, limit, window) && now >= clock && limit > 0 && window > 0
    requires ok == (|After(Entry(lists, key), now - window)| < limit)
    ensures |After(Entry(lists, key), now - window)| == Recent(Entry(log, key), now, window)
    ensures Decision(lists, log, limit, window, now, key, ok)
  {
    var was, kept := Entry(log, key), After(Entry(lists, key), now - window);
    var entries := was + if ok then [now] else [];
    assert InStepAt(lists, log, clock, limit, window, key);
    Compacted(was, Entry(lists, key), clock, limit, window, now);
    if ok {
      Admitted(was, kept, limit, window, now);
    } else {
      assert was + [] == was && kept + [] == kept;
    }
    Others(lists, log, clock, limit, window, now, key, kept + if ok then [now] else [], entries);
    forall from {:trigger Within(entries, from, window)}
      ensures |Within(entries, from, window)| <= limit
    {
      IntervalBound(entries, limit, window, from);
    }
  }

  /** A list over a backing array, as the program keeps it. */
  datatype Slice = Slice(buf: array<int>, len: nat)

  class RateLimiter {
    const limit: nat
    const window: int
    var seen: map<string, Slice>
    /** Whose list each backing array holds, what the lists are, every key's admissions, and the
        latest reading of the clock. */
    ghost var owner: map<array<int>, string>
    ghost var lists: map<string, seq<int>>
    ghost var log: map<string, seq<int>>
    ghost var clock: int

    ghost predicate Tied()
      reads this`seen, this`owner, this`lists, owner.Keys
    {
      && lists.Keys == seen.Keys
      && forall k {:trigger seen[k]} | k in seen ::
           && Owned(k, seen[k]) && seen[k].buf[..seen[k].len] == lists[k]
    }

    ghost predicate Owned(k: string, s: Slice)
      reads this`owner
    {
      s.buf in owner && owner[s.buf] == k && s.len <= s.buf.Length
    }

    ghost predicate Valid()
      reads this, owner.Keys
    {
      limit > 0 && window > 0 && Tied() && InStep(lists, log, clock, limit, window)
    }

    constructor (limit: int, window: int)
      ensures Valid() && log == map[]
      ensures this.limit == (if limit <= 0 then 100 else limit)
      ensures this.window == if window <= 0 then 60_000_000_000 else window
    {
      this.limit := if limit <= 0 then 100 else limit;
      this.window := if window <= 0 then 60_000_000_000 else window;
      seen, owner, lists, log, clock := map[], map[], map[], map[], 0;
    }

    /** Drops the admissions a window old, over the list's own array. */
    method Shrink(key: string, cutoff: int) returns (kept: nat)
      requires Tied() && key in seen
      modifies this`seen, this`lists, seen[key].buf
      ensures Tied() && key in seen && kept == |lists[key]| && seen[key].buf == old(seen[key].buf)
      ensures lists == old(lists)[key := After(old(lists)[key], cutoff)]
    {
      var s := seen[key];
      kept := Compact(s.buf, s.len, cutoff);
      seen, lists := seen[key := Slice(s.buf, kept)], lists[key := s.buf[..kept]];
    }

    /** Appends to a key's list over its own array, which has room. */
    method Put(key: string, now: int)
      requires Tied() && key in seen && seen[key].len < seen[key].buf.Length
      modifies this`seen, this`lists, seen[key].buf
      ensures Tied() && lists == old(lists)[key := old(lists)[key] + [now]]
    {
      var s := seen[key];
      s.buf[s.len] := now;
      assert s.buf[..s.len + 1] == lists[key] + [now];
      seen, lists := seen[key := Slice(s.buf, s.len + 1)], lists[key := lists[key] + [now]];
    }

    /** Gives a key's list a larger array. */
    method Enlarge(key: string)
      requires Tied() && key in seen
      modifies this`seen, this`owner
      ensures Tied() && key in seen && seen[key].len < seen[key].buf.Length && fresh(seen[key].buf)
      ensures forall b {:trigger b in owner} | b in owner :: b in old(owner) || fresh(b)
    {
      var bigger := Copy(seen[key].buf, seen[key].len);
      owner := owner[bigger := key];
      seen := seen[key := Slice(bigger, seen[key].len)];
    }

    method Push(key: string, now: int)
      requires Tied() && key in seen
      modifies this`seen, this`owner, this`lists, seen[key].buf
      ensures Tied() && lists == old(lists)[key := old(lists)[key] + [now]]
      ensures forall b {:trigger b in owner} | b in owner :: b in old(owner) || fresh(b)
    {
      if seen[key].len == seen[key].buf.Length {
        Enlarge(key);
      }
      Put(key, now);
    }

    static method One(now: int) returns (buf: array<int>)
      ensures fresh(buf) && buf.Length == 1 && buf[..1] == [now]
    {
      buf := new int[][now];
      assert buf[..1] == [now];
    }

    /** The list of a new key: its first admission. */
    method Start(key: string, now: int)
      requires Tied() && key !in seen
      modifies this`seen, this`owner, this`lists
      ensures Tied() && lists == old(lists)[key := [now]]
      ensures forall b {:trigger b in owner} | b in owner :: b in old(owner) || fresh(b)
    {
      var buf := One(now);
      owner := owner[buf := key];
      seen, lists := seen[key := Slice(buf, 1)], lists[key := [now]];
    }

    /** What a call does to the list of a key it has seen. */
    method Revise(key: string, now: int) returns (ok: bool)
      requires Tied() && key in seen
      modifies this`seen, this`owner, this`lists, seen[key].buf
      ensures Tied() && ok == (|After(old(lists)[key], now - window)| < limit)
      ensures lists == Changed(old(lists), key, now - window, ok, now)
      ensures forall b {:trigger b in owner} | b in owner :: b in old(owner) || fresh(b)
    {
      ghost var before := lists;
      var kept := Shrink(key, now - window);
      ok := kept < limit;
      PutTwice(before, key, After(before[key], now - window), now);
      if ok {
        Push(key, now);
      }
    }

    method Change(key: string, now: int) returns (ok: bool)
      requires Tied() && limit > 0
      modifies this`seen, this`owner, this`lists, owner.Keys
      ensures Tied() && ok == (|After(Entry(old(lists), key), now - window)| < limit)
      ensures lists == Changed(old(lists), key, now - window, ok, now)
      ensures forall b {:trigger b in owner} | b in owner :: b in old(owner) || fresh(b)
    {
      if key in seen {
        ok := Revise(key, now);
      } else {
        ok := true;
        Start(key, now);
        assert [] + [now] == [now];
      }
    }

    /** Whether a key may proceed: exactly when fewer than `limit` of its admissions lie in the
        window that ends now. No interval of one window ever holds more than `limit` of them. */
    method Allow(key: string, now: int) returns (ok: bool)
      requires Valid() && now >= clock
      modifies this, owner.Keys
      ensures Valid() && clock == now
      ensures forall b {:trigger b in owner} | b in owner :: b in old(owner) || fresh(b)
      ensures ok <==> Recent(Entry(old(log), key), now, window) < limit
      ensures log == old(log)[key := Entry(old(log), key) + if ok then [now] else []]
      ensures key in lists && |lists[key]| <= limit
      ensures forall from {:trigger Within(log[key], from, window)} :: |Within(log[key], from, window)| <= limit
    {
      ghost var before := lists;
      ok := Change(key, now);
      Record(before, key, now, ok);
    }

    ghost method Record(before: map<string, seq<int>>, key: string, now: int, ok: bool)
      requires limit > 0 && window > 0 && InStep(before, log, clock, limit, window) && now >= clock
      requires ok == (|After(Entry(before, key), now - window)| < limit)
      requires lists == Changed(before, key, now - window, ok, now)
      modifies this`log, this`clock
      ensures ok <==> Recent(Entry(old(log), key), now, window) < limit
      ensures clock == now && log == old(log)[key := Entry(old(log), key) + if ok then [now] else []]
      ensures InStep(lists, log, clock, limit, window) && key in lists && |lists[key]| <= limit
      ensures forall from {:trigger Within(log[key], from, window)} :: |Within(log[key], from, window)| <= limit
    {
      Decided(before, log, clock, limit, window, now, key, ok);
      clock, log := now, log[key := Entry(log, key) + if ok then [now] else []];
    }
  }
}
