/**
 The per-opcode rate limiter with absolute windows (src/connection/dig_rate_limiter.rs).  Rates and sizes are reals:
 the program's floating-point tallies are exact for the counts that occur, and rounding is not the point.
 */
module RateLimit {
  import opened Wrappers

  datatype Row = Row(frequency: real, maxSize: real, maxTotal: Option<real>)
  {
    function TotalLimit(): real {
      if maxTotal.Some? then maxTotal.value else frequency * maxSize
    }
  }

  datatype Frame = Frame(opcode: nat, size: nat, now: nat)

  datatype Config = Config(incoming: bool, resetSeconds: nat, factor: real, limits: map<nat, Row>)

  datatype Limiter = Limiter(period: nat, counts: map<nat, real>, sizes: map<nat, real>)

  function Get(m: map<nat, real>, k: nat): real {
    if k in m then m[k] else 0.0
  }

  function Period(cfg: Config, now: nat): nat
    requires cfg.resetSeconds >= 1
  {
    now / cfg.resetSeconds
  }

  function New(cfg: Config, now: nat): Limiter
    requires cfg.resetSeconds >= 1
  {
    Limiter(Period(cfg, now), map[], map[])
  }

  function Sync(cfg: Config, l: Limiter, now: nat): Limiter
    requires cfg.resetSeconds >= 1
  {
    if l.period == Period(cfg, now) then l else Limiter(Period(cfg, now), map[], map[])
  }

  predicate Within(cfg: Config, row: Row, count: real, size: real, total: real) {
    count <= row.frequency * cfg.factor && size <= row.maxSize && total <= row.TotalLimit() * cfg.factor
  }

  function CheckFrame(cfg: Config, l: Limiter, f: Frame): (Limiter, bool)
    requires cfg.resetSeconds >= 1
  {
    var s := Sync(cfg, l, f.now);
    if f.opcode !in cfg.limits then (s, true)
    else
      var count := Get(s.counts, f.opcode) + 1.0;
      var total := Get(s.sizes, f.opcode) + f.size as real;
      var passed := Within(cfg, cfg.limits[f.opcode], count, f.size as real, total);
      (if cfg.incoming || passed
       then s.(counts := s.counts[f.opcode := count], sizes := s.sizes[f.opcode := total]) else s, passed)
  }

  function Run(cfg: Config, start: nat, fs: seq<Frame>): Limiter
    requires cfg.resetSeconds >= 1
  {
    if fs == [] then New(cfg, start) else CheckFrame(cfg, Run(cfg, start, fs[..|fs| - 1]), fs[|fs| - 1]).0
  }

  /** Whether the last frame of `fs` is admitted. */
  predicate LastAdmitted(cfg: Config, start: nat, fs: seq<Frame>)
    requires cfg.resetSeconds >= 1 && fs != []
  {
    CheckFrame(cfg, Run(cfg, start, fs[..|fs| - 1]), fs[|fs| - 1]).1
  }

  // ---- the k-th frame of a window -----------------------------------------------------------

  /** The frames of opcode `w` that arrived in window `p` since it was last entered. */
  function InWindow(cfg: Config, fs: seq<Frame>, w: nat, p: nat): seq<Frame>
    requires cfg.resetSeconds >= 1
  {
    if fs == [] || Period(cfg, fs[|fs| - 1].now) != p then []
    else InWindow(cfg, fs[..|fs| - 1], w, p) + (if fs[|fs| - 1].opcode == w then [fs[|fs| - 1]] else [])
  }

  function Volume(fs: seq<Frame>): real {
    if fs == [] then 0.0 else Volume(fs[..|fs| - 1]) + fs[|fs| - 1].size as real
  }

  lemma VolumePlus(fs: seq<Frame>, f: Frame)
    ensures Volume(fs + [f]) == Volume(fs) + f.size as real
  {
    assert (fs + [f])[..|fs|] == fs;
  }

  /** An inbound limiter's tallies are the frames of the window so far, admitted or not. */
  lemma {:induction false} TalliesAreWindow(cfg: Config, start: nat, fs: seq<Frame>, w: nat)
    requires cfg.resetSeconds >= 1 && cfg.incoming && w in cfg.limits
    ensures var l := Run(cfg, start, fs); var win := InWindow(cfg, fs, w, l.period);
      Get(l.counts, w) == |win| as real && Get(l.sizes, w) == Volume(win)
    ensures fs != [] ==> Run(cfg, start, fs).period == Period(cfg, fs[|fs| - 1].now)
  {
    hide CheckFrame, Sync, Period;
    if fs != [] {
      var n := |fs| - 1;
      var f, before := fs[n], Run(cfg, start, fs[..n]);
      TalliesAreWindow(cfg, start, fs[..n], w);
      CheckedTallies(cfg, before, f, w);
      Synced(cfg, before, f.now, w);
      var win := InWindow(cfg, fs[..n], w, Period(cfg, f.now));
      if before.period != Period(cfg, f.now) { OtherWindow(cfg, fs[..n], w, Period(cfg, f.now)); }
      VolumePlus(win, f);
      assert win + [] == win;
    }
  }

  /** The scaled limits: so many frames, none larger than so much, and so much in all, which is what that number of the
      largest frames comes to unless the row says otherwise. */
  ghost predicate Meets(cfg: Config, row: Row, count: real, size: real, total: real) {
    && count <= row.frequency * cfg.factor
    && size <= row.maxSize
    && total <= (match row.maxTotal case Some(limit) => limit case None => row.frequency * row.maxSize) * cfg.factor
  }

  lemma WithinIs(cfg: Config, row: Row, count: real, size: real, total: real)
    ensures Within(cfg, row, count, size, total) <==> Meets(cfg, row, count, size, total)
  {
  }

  /** An inbound limiter admits the k-th frame of an opcode in a window exactly when k, its own size and the
      total size of all k meet the scaled limits. */
  lemma KthFrame(cfg: Config, start: nat, fs: seq<Frame>)
    requires cfg.resetSeconds >= 1 && cfg.incoming && fs != [] && fs[|fs| - 1].opcode in cfg.limits
    ensures var f := fs[|fs| - 1]; var win := InWindow(cfg, fs, f.opcode, Period(cfg, f.now));
      LastAdmitted(cfg, start, fs) <==> Meets(cfg, cfg.limits[f.opcode], |win| as real, f.size as real, Volume(win))
  {
    hide Within, Meets, CheckFrame, Sync, InWindow, Run, Period, Volume, Get;
    var n := |fs| - 1;
    var f := fs[n];
    var before := Run(cfg, start, fs[..n]);
    TalliesAreWindow(cfg, start, fs[..n], f.opcode);
    WindowGrows(cfg, fs, f.opcode);
    Verdict(cfg, before, f);
    Synced(cfg, before, f.now, f.opcode);
    var win := InWindow(cfg, fs[..n], f.opcode, Period(cfg, f.now));
    VolumePlus(win, f);
    if before.period != Period(cfg, f.now) { OtherWindow(cfg, fs[..n], f.opcode, Period(cfg, f.now)); }
    WithinIs(cfg, cfg.limits[f.opcode], |win + [f]| as real, f.size as real, Volume(win + [f]));
  }

  lemma WindowGrows(cfg: Config, fs: seq<Frame>, w: nat)
    requires cfg.resetSeconds >= 1 && fs != [] && fs[|fs| - 1].opcode == w
    ensures var n := |fs| - 1; var p := Period(cfg, fs[n].now);
      InWindow(cfg, fs, w, p) == InWindow(cfg, fs[..n], w, p) + [fs[n]]
  {
  }

  lemma OtherWindow(cfg: Config, fs: seq<Frame>, w: nat, p: nat)
    requires cfg.resetSeconds >= 1 && (fs != [] ==> Period(cfg, fs[|fs| - 1].now) != p)
    ensures InWindow(cfg, fs, w, p) == [] && Volume([]) == 0.0
  {
  }

  /** A frame with limits is judged on the tallies of its window, itself included. */
  lemma Verdict(cfg: Config, l: Limiter, f: Frame)
    requires cfg.resetSeconds >= 1 && f.opcode in cfg.limits
    ensures var s := Sync(cfg, l, f.now);
      CheckFrame(cfg, l, f).1 <==> Within(cfg, cfg.limits[f.opcode], Get(s.counts, f.opcode) + 1.0, f.size as real,
        Get(s.sizes, f.opcode) + f.size as real)
  {
    hide Within, Sync;
  }

  /** The frames of opcode `w` admitted in window `p` since it was last entered. */
  function PassedInWindow(cfg: Config, start: nat, fs: seq<Frame>, w: nat, p: nat): seq<Frame>
    requires cfg.resetSeconds >= 1
  {
    if fs == [] || Period(cfg, fs[|fs| - 1].now) != p then []
    else
      PassedInWindow(cfg, start, fs[..|fs| - 1], w, p) +
        (if fs[|fs| - 1].opcode == w && LastAdmitted(cfg, start, fs) then [fs[|fs| - 1]] else [])
  }

  lemma CheckedTallies(cfg: Config, l: Limiter, f: Frame, w: nat)
    requires cfg.resetSeconds >= 1 && w in cfg.limits
    ensures var (u, passed) := CheckFrame(cfg, l, f); var s := Sync(cfg, l, f.now);
      var charged := f.opcode == w && (cfg.incoming || passed);
      && u.period == Period(cfg, f.now)
      && Get(u.counts, w) == Get(s.counts, w) + (if charged then 1.0 else 0.0)
      && Get(u.sizes, w) == Get(s.sizes, w) + (if charged then f.size as real else 0.0)
  {
    hide Within;
  }

  lemma Synced(cfg: Config, l: Limiter, now: nat, w: nat)
    requires cfg.resetSeconds >= 1
    ensures var s := Sync(cfg, l, now);
      && (l.period == Period(cfg, now) ==> s == l)
      && (l.period != Period(cfg, now) ==> Get(s.counts, w) == 0.0 && Get(s.sizes, w) == 0.0)
  {
  }

  /** An outbound limiter's tallies are the frames of the window it has admitted so far. */
  lemma {:induction false} TalliesArePassed(cfg: Config, start: nat, fs: seq<Frame>, w: nat)
    requires cfg.resetSeconds >= 1 && !cfg.incoming && w in cfg.limits
    ensures var l := Run(cfg, start, fs); var win := PassedInWindow(cfg, start, fs, w, l.period);
      Get(l.counts, w) == |win| as real && Get(l.sizes, w) == Volume(win)
    ensures fs != [] ==> Run(cfg, start, fs).period == Period(cfg, fs[|fs| - 1].now)
  {
    hide CheckFrame, Sync, Period;
    if fs != [] {
      var n := |fs| - 1;
      var f, before := fs[n], Run(cfg, start, fs[..n]);
      TalliesArePassed(cfg, start, fs[..n], w);
      CheckedTallies(cfg, before, f, w);
      Synced(cfg, before, f.now, w);
      var win := PassedInWindow(cfg, start, fs[..n], w, Period(cfg, f.now));
      if before.period != Period(cfg, f.now) { NonePassed(cfg, start, fs[..n], w, Period(cfg, f.now)); }
      VolumePlus(win, f);
      assert win + [] == win;
    }
  }

  /** An outbound limiter admits a frame exactly when with the admitted ones of its window before it the scaled limits
      are met: what it refuses uses up nothing. */
  lemma OutboundFrame(cfg: Config, start: nat, fs: seq<Frame>)
    requires cfg.resetSeconds >= 1 && !cfg.incoming && fs != [] && fs[|fs| - 1].opcode in cfg.limits
    ensures var n := |fs| - 1; var f := fs[n]; var win := PassedInWindow(cfg, start, fs[..n], f.opcode, Period(cfg, f.now));
      LastAdmitted(cfg, start, fs) <==>
        Meets(cfg, cfg.limits[f.opcode], |win| as real + 1.0, f.size as real, Volume(win) + f.size as real)
  {
    hide Within, Meets, Sync, CheckFrame, Run, Period, Volume, Get, PassedInWindow;
    var n := |fs| - 1;
    var f := fs[n];
    var before := Run(cfg, start, fs[..n]);
    TalliesArePassed(cfg, start, fs[..n], f.opcode);
    Verdict(cfg, before, f);
    Synced(cfg, before, f.now, f.opcode);
    var win := PassedInWindow(cfg, start, fs[..n], f.opcode, Period(cfg, f.now));
    if before.period != Period(cfg, f.now) { NonePassed(cfg, start, fs[..n], f.opcode, Period(cfg, f.now)); }
    WithinIs(cfg, cfg.limits[f.opcode], |win| as real + 1.0, f.size as real, Volume(win) + f.size as real);
  }

  lemma NonePassed(cfg: Config, start: nat, fs: seq<Frame>, w: nat, p: nat)
    requires cfg.resetSeconds >= 1 && (fs != [] ==> Period(cfg, fs[|fs| - 1].now) != p)
    ensures PassedInWindow(cfg, start, fs, w, p) == [] && Volume([]) == 0.0
  {
  }

  /** An opcode without limits is always admitted. */
  lemma UnlimitedPasses(cfg: Config, start: nat, fs: seq<Frame>)
    requires cfg.resetSeconds >= 1 && fs != [] && fs[|fs| - 1].opcode !in cfg.limits
    ensures LastAdmitted(cfg, start, fs)
  {
  }

  // ---- admissions per window and per interval --------------------------------------------------

  type When = nat -> bool

  /** How many frames of opcode `w` were admitted at the times `at` selects. */
  function Admissions(cfg: Config, start: nat, fs: seq<Frame>, w: nat, at: When): nat
    requires cfg.resetSeconds >= 1
  {
    if fs == [] then 0
    else
      var f := fs[|fs| - 1];
      Admissions(cfg, start, fs[..|fs| - 1], w, at) +
        (if f.opcode == w && at(f.now) && LastAdmitted(cfg, start, fs) then 1 else 0)
  }

  /** The clock never runs backwards, from construction on. */
  predicate Monotone(start: nat, fs: seq<Frame>) {
    (forall i :: 0 <= i < |fs| ==> start <= fs[i].now) && (forall i, j :: 0 <= i < j < |fs| ==> fs[i].now <= fs[j].now)
  }

  function InPeriod(cfg: Config, p: nat): When
    requires cfg.resetSeconds >= 1
  {
    now => now / cfg.resetSeconds == p
  }

  function Limit(cfg: Config, w: nat): real
    requires w in cfg.limits
  {
    cfg.limits[w].frequency * cfg.factor
  }

  lemma {:induction false} PeriodAdvances(cfg: Config, start: nat, fs: seq<Frame>)
    requires cfg.resetSeconds >= 1 && Monotone(start, fs)
    ensures Run(cfg, start, fs).period == Period(cfg, if fs == [] then start else fs[|fs| - 1].now)
  {
    if fs != [] { PeriodAdvances(cfg, start, fs[..|fs| - 1]); }
  }

  lemma {:induction false} LaterPeriodsEmpty(cfg: Config, start: nat, fs: seq<Frame>, w: nat, p: nat)
    requires cfg.resetSeconds >= 1 && Monotone(start, fs)
    requires forall i :: 0 <= i < |fs| ==> Period(cfg, fs[i].now) < p
    ensures Admissions(cfg, start, fs, w, InPeriod(cfg, p)) == 0
  {
    if fs != [] {
      assert Period(cfg, fs[|fs| - 1].now) < p;
      LaterPeriodsEmpty(cfg, start, fs[..|fs| - 1], w, p);
    }
  }

  lemma {:induction false} Grows(r: nat, d: nat)
    requires d >= 1
    ensures r * d >= r
  {
    if d > 1 { Grows(r, d - 1); }
  }

  lemma PeriodMonotone(cfg: Config, a: nat, b: nat)
    requires cfg.resetSeconds >= 1 && a <= b
    ensures Period(cfg, a) <= Period(cfg, b)
  {
    var r := cfg.resetSeconds;
    var k, j := a / r, b / r;
    assert a == r * k + a % r && b == r * j + b % r;
    assert r * (k - j) == r * k - r * j;
    if k > j { Grows(r, k - j); }
  }

  /** One frame: an admission is never ahead of the tally, nor the tally that admits one of the limit. */
  lemma WindowStep(cfg: Config, l: Limiter, f: Frame, w: nat, p: nat, a: nat)
    requires cfg.resetSeconds >= 1 && w in cfg.limits
    requires (a > 0 ==> a as real <= Limit(cfg, w)) && (l.period == p ==> a as real <= Get(l.counts, w))
    requires Period(cfg, f.now) == p && l.period != p ==> a == 0
    ensures var (u, passed) := CheckFrame(cfg, l, f);
      var b := a + (if f.opcode == w && Period(cfg, f.now) == p && passed then 1 else 0);
      (b > 0 ==> b as real <= Limit(cfg, w)) && (u.period == p ==> b as real <= Get(u.counts, w))
  {
  }

  /** With a clock that never runs backwards the admissions of a window never exceed its scaled frequency; the
      tally of the current window is never behind its admissions. */
  lemma {:induction false} WindowBound(cfg: Config, start: nat, fs: seq<Frame>, w: nat, p: nat)
    requires cfg.resetSeconds >= 1 && w in cfg.limits && Monotone(start, fs)
    ensures var a := Admissions(cfg, start, fs, w, InPeriod(cfg, p)); var l := Run(cfg, start, fs);
      && (a > 0 ==> a as real <= Limit(cfg, w))
      && (l.period == p ==> a as real <= Get(l.counts, w))
  {
    hide CheckFrame, Limit, Get;
    if fs == [] {
      EmptyTally(cfg, start, w);
    } else {
      var n := |fs| - 1;
      var f, before := fs[n], fs[..n];
      WindowBound(cfg, start, before, w, p);
      PeriodAdvances(cfg, start, before);
      var l := Run(cfg, start, before);
      if Period(cfg, f.now) == p && l.period != p { NewWindowEmpty(cfg, start, fs, w, p); }
      WindowStep(cfg, l, f, w, p, Admissions(cfg, start, before, w, InPeriod(cfg, p)));
    }
  }

  lemma EmptyTally(cfg: Config, start: nat, w: nat)
    requires cfg.resetSeconds >= 1
    ensures Get(New(cfg, start).counts, w) == 0.0
  {
  }

  lemma NewWindowEmpty(cfg: Config, start: nat, fs: seq<Frame>, w: nat, p: nat)
    requires cfg.resetSeconds >= 1 && Monotone(start, fs) && fs != []
    requires Period(cfg, fs[|fs| - 1].now) == p && Run(cfg, start, fs[..|fs| - 1]).period != p
    ensures Admissions(cfg, start, fs[..|fs| - 1], w, InPeriod(cfg, p)) == 0
  {
    hide CheckFrame, Period;
    var n := |fs| - 1;
    var before := fs[..n];
    PeriodAdvances(cfg, start, before);
    forall i | 0 <= i < n ensures Period(cfg, before[i].now) < p {
      PeriodMonotone(cfg, before[i].now, before[n - 1].now);
      PeriodMonotone(cfg, before[n - 1].now, fs[n].now);
    }
    LaterPeriodsEmpty(cfg, start, before, w, p);
  }

  lemma {:induction false} Covered(cfg: Config, start: nat, fs: seq<Frame>, w: nat, at: When, a: When, b: When)
    requires cfg.resetSeconds >= 1 && forall i :: 0 <= i < |fs| && at(fs[i].now) ==> a(fs[i].now) || b(fs[i].now)
    ensures Admissions(cfg, start, fs, w, at) <= Admissions(cfg, start, fs, w, a) + Admissions(cfg, start, fs, w, b)
  {
    if fs != [] {
      assert at(fs[|fs| - 1].now) ==> a(fs[|fs| - 1].now) || b(fs[|fs| - 1].now);
      Covered(cfg, start, fs[..|fs| - 1], w, at, a, b);
    }
  }

  lemma Quotient(r: nat, x: nat, q: nat, m: nat)
    requires r >= 1 && x == r * q + m && m < r
    ensures x / r == q
  {
    var k := x / r;
    assert x == r * k + x % r;
    assert r * (k - q) == r * k - r * q;
    assert r * (q - k) == r * q - r * k;
    if k > q { Grows(r, k - q); } else if k < q { Grows(r, q - k); }
  }

  lemma NextWindow(r: nat, n: nat)
    requires r >= 1
    ensures (n + r) / r == n / r + 1
  {
    var q := n / r;
    assert n == r * q + n % r;
    assert r * (q + 1) == r * q + r;
    Quotient(r, n + r, q + 1, n % r);
  }

  lemma TwoWindows(cfg: Config, from: nat, now: nat)
    requires cfg.resetSeconds >= 1 && from <= now < from + cfg.resetSeconds
    ensures Period(cfg, now) == Period(cfg, from) || Period(cfg, now) == Period(cfg, from) + 1
  {
    PeriodMonotone(cfg, from, now);
    PeriodMonotone(cfg, now, from + cfg.resetSeconds);
    NextWindow(cfg.resetSeconds, from);
  }

  /** In any interval of one window's length at most twice the scaled frequency is admitted, wherever the
      interval falls. */
  lemma IntervalBound(cfg: Config, start: nat, fs: seq<Frame>, w: nat, from: nat)
    requires cfg.resetSeconds >= 1 && w in cfg.limits && Monotone(start, fs)
    ensures var a := Admissions(cfg, start, fs, w, now => from <= now < from + cfg.resetSeconds);
      a > 0 ==> a as real <= 2.0 * Limit(cfg, w)
  {
    hide Monotone, Run, Admissions;
    var p := from / cfg.resetSeconds;
    var at: When := now => from <= now < from + cfg.resetSeconds;
    forall i | 0 <= i < |fs| && at(fs[i].now)
      ensures InPeriod(cfg, p)(fs[i].now) || InPeriod(cfg, p + 1)(fs[i].now)
    {
      TwoWindows(cfg, from, fs[i].now);
    }
    Covered(cfg, start, fs, w, at, InPeriod(cfg, p), InPeriod(cfg, p + 1));
    WindowBound(cfg, start, fs, w, p);
    WindowBound(cfg, start, fs, w, p + 1);
    assert Admissions(cfg, start, fs, w, at) ==
      Admissions(cfg, start, fs, w, now => from <= now < from + cfg.resetSeconds);
  }

  // ---- when the volume test decides ------------------------------------------------------------

  lemma Times(a: real, b: real, c: real)
    requires a <= b && c >= 0.0
    ensures a * c <= b * c
  {
  }

  lemma VolumeFollows(frequency: real, factor: real, maxSize: real, n: real, size: real, sizes: real)
    requires n + 1.0 <= frequency * factor && 0.0 <= size <= maxSize && sizes <= n * maxSize
    ensures sizes + size <= frequency * maxSize * factor
  {
    Times(n + 1.0, frequency * factor, maxSize);
    assert (n + 1.0) * maxSize == n * maxSize + maxSize;
    assert frequency * factor * maxSize == frequency * maxSize * factor;
  }

  lemma {:induction false} OutboundVolume(cfg: Config, start: nat, fs: seq<Frame>, w: nat)
    requires cfg.resetSeconds >= 1 && !cfg.incoming && w in cfg.limits
    ensures var l := Run(cfg, start, fs);
      Get(l.sizes, w) <= Get(l.counts, w) * cfg.limits[w].maxSize && Get(l.counts, w) >= 0.0
  {
    hide CheckFrame;
    if fs != [] {
      OutboundVolume(cfg, start, fs[..|fs| - 1], w);
      FrameVolume(cfg, Run(cfg, start, fs[..|fs| - 1]), fs[|fs| - 1], w);
    }
  }

  lemma FrameVolume(cfg: Config, l: Limiter, f: Frame, w: nat)
    requires cfg.resetSeconds >= 1 && !cfg.incoming && w in cfg.limits
    requires Get(l.sizes, w) <= Get(l.counts, w) * cfg.limits[w].maxSize && Get(l.counts, w) >= 0.0
    ensures var u := CheckFrame(cfg, l, f).0;
      Get(u.sizes, w) <= Get(u.counts, w) * cfg.limits[w].maxSize && Get(u.counts, w) >= 0.0
  {
  }

  /** An outbound limiter without a volume limit decides on the count and the frame's own size alone. */
  lemma OutboundVolumeNeverDecides(cfg: Config, start: nat, fs: seq<Frame>, f: Frame)
    requires cfg.resetSeconds >= 1 && !cfg.incoming && f.opcode in cfg.limits && cfg.limits[f.opcode].maxTotal.None?
    ensures var l := Sync(cfg, Run(cfg, start, fs), f.now); var row := cfg.limits[f.opcode];
      CheckFrame(cfg, Run(cfg, start, fs), f).1 <==>
        Get(l.counts, f.opcode) + 1.0 <= row.frequency * cfg.factor && f.size as real <= row.maxSize
  {
    hide Run;
    var row := cfg.limits[f.opcode];
    var before := Run(cfg, start, fs);
    var l := Sync(cfg, before, f.now);
    OutboundVolume(cfg, start, fs, f.opcode);
    SyncVolume(cfg, before, f.now, f.opcode);
    var n := Get(l.counts, f.opcode);
    if n + 1.0 <= row.frequency * cfg.factor && f.size as real <= row.maxSize {
      VolumeFollows(row.frequency, cfg.factor, row.maxSize, n, f.size as real, Get(l.sizes, f.opcode));
    }
  }

  lemma SyncVolume(cfg: Config, l: Limiter, now: nat, w: nat)
    requires cfg.resetSeconds >= 1 && w in cfg.limits && Get(l.sizes, w) <= Get(l.counts, w) * cfg.limits[w].maxSize
    ensures var s := Sync(cfg, l, now); Get(s.sizes, w) <= Get(s.counts, w) * cfg.limits[w].maxSize
  {
  }

  /** For an inbound limiter it can decide: one oversized frame, refused, uses up the volume of the rest. */
  lemma InboundVolumeCanDecide()
    ensures var cfg := Config(true, 60, 1.0, map[221 := Row(10.0, 164.0, None)]);
      var fs := [Frame(221, 2000, 0)]; var f := Frame(221, 1, 0); var l := Run(cfg, 0, fs);
      && !LastAdmitted(cfg, 0, fs)
      && Get(l.counts, 221) + 1.0 <= 10.0 && f.size as real <= 164.0 && !CheckFrame(cfg, l, f).1
  {
    var cfg := Config(true, 60, 1.0, map[221 := Row(10.0, 164.0, None)]);
    var fs := [Frame(221, 2000, 0)];
    assert fs[..0] == [];
    assert Run(cfg, 0, []) == Limiter(0, map[], map[]);
    assert Run(cfg, 0, fs) == Limiter(0, map[221 := 1.0], map[221 := 2000.0]);
  }

  // ---- the limiter in the heap -------------------------------------------------------------------

  class DigRateLimiter {
    const cfg: Config
    var period: nat
    var counts: map<nat, real>
    var sizes: map<nat, real>

    function Now(): Limiter
      reads this
    {
      Limiter(period, counts, sizes)
    }

    constructor (cfg: Config, now: nat)
      requires cfg.resetSeconds >= 1
      ensures this.cfg == cfg && Now() == New(cfg, now)
    {
      this.cfg := cfg;
      period, counts, sizes := Period(cfg, now), map[], map[];
    }

    method SyncPeriod(now: nat)
      requires cfg.resetSeconds >= 1
      modifies this
      ensures Now() == Sync(cfg, old(Now()), now)
    {
      var current := Period(cfg, now);
      if period != current {
        period := current;
        counts := map[];
        sizes := map[];
      }
    }

    method Check(wireType: nat, dataLen: nat, now: nat) returns (passed: bool)
      requires cfg.resetSeconds >= 1
      modifies this
      ensures (Now(), passed) == CheckFrame(cfg, old(Now()), Frame(wireType, dataLen, now))
    {
      SyncPeriod(now);
      if wireType !in cfg.limits { return true; }
      var row := cfg.limits[wireType];
      var size := dataLen as real;
      var newCount := Get(counts, wireType) + 1.0;
      var newTotal := Get(sizes, wireType) + size;
      var maxTotal := if row.maxTotal.Some? then row.maxTotal.value else row.frequency * row.maxSize;
      passed := newCount <= row.frequency * cfg.factor && size <= row.maxSize && newTotal <= maxTotal * cfg.factor;
      if cfg.incoming || passed {
        counts := counts[wireType := newCount];
        sizes := sizes[wireType := newTotal];
      }
    }
  }
}
