/** Control calls that time out against a daemon that still answers pings: separate
    stalls are counted over a sliding window, and enough of them eject the worker. */
module Stalls {
  import opened Arithmetic

  /** Clock readings in nanoseconds; they need not be monotone. */
  datatype Config = Config(callTimeout: int, window: int, limit: int)

  /** envDuration and envCount accept nothing else. */
  predicate Sensible(cfg: Config) {
    cfg.callTimeout > 0 && cfg.window > 0 && cfg.limit >= 1
  }

  datatype Noted = Noted(timeouts: seq<int>, count: nat, eject: bool)

  /** The readings still inside the window, in order. */
  function Recent(ts: seq<int>, now: int, window: int): (r: seq<int>)
    ensures |r| <= |ts| && forall t <- r :: t in ts && now - t < window
  {
    if ts == [] then []
    else
      var rest := Recent(ts[..|ts| - 1], now, window);
      if now - ts[|ts| - 1] < window then rest + [ts[|ts| - 1]] else rest
  }

  function Note(ts: seq<int>, now: int, cfg: Config): Noted {
    var recent := Recent(ts, now, cfg.window);
    var k := |recent|;
    if k > 0 && now - recent[k - 1] < cfg.callTimeout then Noted(recent, k, false)
    else if k + 1 < cfg.limit then Noted(recent + [now], k + 1, false)
    else Noted([], k + 1, true)
  }

  class Conn {
    var timeouts: seq<int>

    constructor ()
      ensures timeouts == []
    {
      timeouts := [];
    }

    /** noteTimeout: filters its slice in place, then counts or absorbs the call. */
    method NoteTimeout(now: int, cfg: Config) returns (count: nat, eject: bool)
      modifies this
      ensures Noted(timeouts, count, eject) == Note(old(timeouts), now, cfg)
    {
      var recent: seq<int> := [];
      for i := 0 to |timeouts|
        invariant timeouts == old(timeouts) && recent == Recent(timeouts[..i], now, cfg.window)
      {
        assert timeouts[..i + 1][..i] == timeouts[..i];
        if now - timeouts[i] < cfg.window {
          recent := recent + [timeouts[i]];
        }
      }
      assert timeouts[..|timeouts|] == timeouts;
      timeouts := recent;
      var k := |timeouts|;
      if k > 0 && now - timeouts[k - 1] < cfg.callTimeout {
        return k, false;
      }
      timeouts := timeouts + [now];
      if |timeouts| < cfg.limit {
        return |timeouts|, false;
      }
      count := |timeouts|;
      timeouts := [];
      eject := true;
    }
  }

  /** What is recorded after a run of timeouts at these clock readings. */
  function After(clocks: seq<int>, cfg: Config): seq<int> {
    if clocks == [] then []
    else Note(After(clocks[..|clocks| - 1], cfg), clocks[|clocks| - 1], cfg).timeouts
  }

  /** The last call of the run reports an ejection. */
  predicate Ejects(clocks: seq<int>, cfg: Config) {
    clocks != [] && Note(After(clocks[..|clocks| - 1], cfg), clocks[|clocks| - 1], cfg).eject
  }

  // --------------------------------------------------------------- every run

  predicate Spaced(ts: seq<int>, gap: int) {
    forall i, j :: 0 <= i < j < |ts| ==> ts[i] + gap <= ts[j]
  }

  lemma {:induction false} RecentKeepsSpacing(ts: seq<int>, now: int, window: int, gap: int)
    requires Spaced(ts, gap)
    ensures Spaced(Recent(ts, now, window), gap)
  {
    if ts != [] {
      var front := ts[..|ts| - 1];
      assert forall i :: 0 <= i < |front| ==> front[i] == ts[i];
      RecentKeepsSpacing(front, now, window, gap);
      var kept := Recent(front, now, window);
      forall i | 0 <= i < |kept| ensures kept[i] + gap <= ts[|ts| - 1] {
        assert kept[i] in front;
      }
    }
  }

  /** Whatever the clock does, recorded stalls stay at least one call timeout apart,
      in order, and fewer than the limit. */
  lemma {:induction false} StallsStaySeparate(clocks: seq<int>, cfg: Config)
    requires Sensible(cfg)
    ensures Spaced(After(clocks, cfg), cfg.callTimeout) && |After(clocks, cfg)| < cfg.limit
  {
    if clocks != [] {
      var ts, now := After(clocks[..|clocks| - 1], cfg), clocks[|clocks| - 1];
      StallsStaySeparate(clocks[..|clocks| - 1], cfg);
      RecentKeepsSpacing(ts, now, cfg.window, cfg.callTimeout);
    }
  }

  lemma {:induction false} Span(ts: seq<int>, gap: int)
    requires Spaced(ts, gap) && ts != []
    ensures ts[|ts| - 1] - ts[0] >= (|ts| - 1) * gap
  {
    if |ts| > 1 {
      var front := ts[..|ts| - 1];
      assert forall i :: 0 <= i < |front| ==> front[i] == ts[i];
      Span(front, gap);
    }
  }

  lemma WideEnough(clocks: seq<int>, cfg: Config)
    requires Sensible(cfg) && Ejects(clocks, cfg)
    ensures cfg.window > (cfg.limit - 1) * cfg.callTimeout
  {
    var ts, now := After(clocks[..|clocks| - 1], cfg), clocks[|clocks| - 1];
    StallsStaySeparate(clocks[..|clocks| - 1], cfg);
    RecentKeepsSpacing(ts, now, cfg.window, cfg.callTimeout);
    Crowded(Recent(ts, now, cfg.window), now, cfg);
  }

  /** So many separate stalls, all within the window of this one, need a wide window. */
  lemma Crowded(recent: seq<int>, now: int, cfg: Config)
    requires Sensible(cfg) && Spaced(recent, cfg.callTimeout) && |recent| >= cfg.limit - 1
    requires forall t :: t in recent ==> now - t < cfg.window
    requires recent != [] ==> recent[|recent| - 1] + cfg.callTimeout <= now
    ensures cfg.window > (cfg.limit - 1) * cfg.callTimeout
  {
    var gap := cfg.callTimeout;
    if recent == [] {
      assert (cfg.limit - 1) * gap == 0;
    } else {
      assert recent[0] in recent;
      Span(recent, gap);
      Scaled(cfg.limit - 2, |recent| - 1, gap);
      assert (cfg.limit - 1) * gap == (cfg.limit - 2) * gap + gap;
    }
  }

  /** k timeouts, one call timeout apart. */
  function Ticks(k: nat, gap: int): seq<int> {
    if k == 0 then [] else Ticks(k - 1, gap) + [(k - 1) * gap]
  }

  lemma {:induction false} TicksAt(k: nat, gap: int)
    requires gap > 0
    ensures |Ticks(k, gap)| == k && forall i :: 0 <= i < k ==> Ticks(k, gap)[i] == i * gap
  {
    if k > 0 {
      TicksAt(k - 1, gap);
    }
  }

  lemma {:induction false} RecentKeepsAll(ts: seq<int>, now: int, window: int)
    requires forall t <- ts :: now - t < window
    ensures Recent(ts, now, window) == ts
  {
    if ts != [] {
      var front := ts[..|ts| - 1];
      assert ts == front + [ts[|ts| - 1]] && ts[|ts| - 1] in ts;
      forall t | t in front ensures now - t < window {
        assert t in ts;
      }
      RecentKeepsAll(front, now, window);
    }
  }

  lemma {:induction false} TicksAreAllRecorded(k: nat, cfg: Config)
    requires Sensible(cfg) && cfg.window > (cfg.limit - 1) * cfg.callTimeout && k < cfg.limit
    ensures After(Ticks(k, cfg.callTimeout), cfg) == Ticks(k, cfg.callTimeout)
  {
    if k > 0 {
      TickIsCounted(Ticks(k - 1, cfg.callTimeout), k - 1, cfg);
      TicksAreAllRecorded(k - 1, cfg);
      RecordsOneMore(Ticks(k - 1, cfg.callTimeout), (k - 1) * cfg.callTimeout, cfg);
    }
  }

  lemma RecordsOneMore(ts: seq<int>, now: int, cfg: Config)
    requires After(ts, cfg) == ts && Recent(ts, now, cfg.window) == ts && |ts| + 1 < cfg.limit
    requires ts != [] ==> now - ts[|ts| - 1] >= cfg.callTimeout
    ensures After(ts + [now], cfg) == ts + [now]
  {
    assert (ts + [now])[..|ts|] == ts;
  }

  /** One more tick finds all earlier ones in the window and its own distance kept. */
  lemma TickIsCounted(ts: seq<int>, k: nat, cfg: Config)
    requires Sensible(cfg) && cfg.window > (cfg.limit - 1) * cfg.callTimeout && k < cfg.limit
    requires ts == Ticks(k, cfg.callTimeout)
    ensures |ts| == k
    ensures Recent(ts, k * cfg.callTimeout, cfg.window) == ts
    ensures k > 0 ==> k * cfg.callTimeout - ts[k - 1] >= cfg.callTimeout
  {
    TicksAt(k, cfg.callTimeout);
    Scaled(k, cfg.limit - 1, cfg.callTimeout);
    forall t | t in ts ensures k * cfg.callTimeout - t < cfg.window {
      var i :| 0 <= i < k && ts[i] == t;
      Scaled(0, i, cfg.callTimeout);
    }
    RecentKeepsAll(ts, k * cfg.callTimeout, cfg.window);
    if k > 0 {
      assert k * cfg.callTimeout == (k - 1) * cfg.callTimeout + cfg.callTimeout;
    }
  }

  /** The startup warning says exactly when a daemon that answers pings can never be
      ejected for timing calls out: when the window cannot hold that many stalls. */
  lemma WarningIsExact(cfg: Config)
    requires Sensible(cfg)
    ensures cfg.limit > 1 && cfg.window <= (cfg.limit - 1) * cfg.callTimeout
            <==> forall clocks: seq<int> :: !Ejects(clocks, cfg)
  {
    if cfg.window <= (cfg.limit - 1) * cfg.callTimeout {
      forall clocks: seq<int> ensures !Ejects(clocks, cfg) {
        if Ejects(clocks, cfg) {
          WideEnough(clocks, cfg);
        }
      }
    } else {
      var k := cfg.limit - 1;
      var ts := Ticks(k, cfg.callTimeout);
      TicksAreAllRecorded(k, cfg);
      TickIsCounted(ts, k, cfg);
      var clocks := ts + [k * cfg.callTimeout];
      assert clocks[..|clocks| - 1] == ts;
      assert Ejects(clocks, cfg);
    }
  }
}
