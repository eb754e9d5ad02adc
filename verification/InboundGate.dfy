/**
 The inbound admission gate (src/connection/inbound_limits.rs): Chia's limiter for every frame, and the DIG limiter
 as well for frames of the DIG band.  Chia's limiter is any state machine whatsoever.
 */
module InboundGate {
  import opened RateLimit

  const DIG_WIRE_BAND_START: nat := 220

  type Chia(!new)

  /** One step of Chia's limiter: its next state and whether it admits the frame. */
  type Step = (Chia, Frame) -> (Chia, bool)

  datatype Gate = Gate(chia: Chia, dig: Limiter)

  predicate InBand(f: Frame) {
    f.opcode >= DIG_WIRE_BAND_START
  }

  /** The frame as the DIG limiter is told of it: its length is cast to 32 bits. */
  function Cast(f: Frame): Frame {
    f.(size := f.size % 0x1_0000_0000)
  }

  function Allows(cfg: Config, step: Step, g: Gate, f: Frame): (Gate, bool)
    requires cfg.resetSeconds >= 1
  {
    var (c, ok) := step(g.chia, f);
    if !ok then (Gate(c, g.dig), false)
    else if InBand(f) then
      var (d, passed) := CheckFrame(cfg, g.dig, Cast(f));
      (Gate(c, d), passed)
    else (Gate(c, g.dig), true)
  }

  function GateRun(cfg: Config, step: Step, c0: Chia, start: nat, fs: seq<Frame>): Gate
    requires cfg.resetSeconds >= 1
  {
    if fs == [] then Gate(c0, New(cfg, start))
    else Allows(cfg, step, GateRun(cfg, step, c0, start, fs[..|fs| - 1]), fs[|fs| - 1]).0
  }

  predicate GateAdmitsLast(cfg: Config, step: Step, c0: Chia, start: nat, fs: seq<Frame>)
    requires cfg.resetSeconds >= 1 && fs != []
  {
    Allows(cfg, step, GateRun(cfg, step, c0, start, fs[..|fs| - 1]), fs[|fs| - 1]).1
  }

  // ---- the two limiters on their own ---------------------------------------------------------

  function ChiaRun(step: Step, c0: Chia, fs: seq<Frame>): Chia {
    if fs == [] then c0 else step(ChiaRun(step, c0, fs[..|fs| - 1]), fs[|fs| - 1]).0
  }

  predicate ChiaAdmitsLast(step: Step, c0: Chia, fs: seq<Frame>)
    requires fs != []
  {
    step(ChiaRun(step, c0, fs[..|fs| - 1]), fs[|fs| - 1]).1
  }

  /** The band frames Chia's limiter, run alone, admits. */
  function Reaching(step: Step, c0: Chia, fs: seq<Frame>): seq<Frame> {
    if fs == [] then []
    else
      Reaching(step, c0, fs[..|fs| - 1]) +
        (if InBand(fs[|fs| - 1]) && ChiaAdmitsLast(step, c0, fs) then [Cast(fs[|fs| - 1])] else [])
  }

  // ---- the composition -------------------------------------------------------------------------

  lemma {:induction false} GateIsBoth(cfg: Config, step: Step, c0: Chia, start: nat, fs: seq<Frame>)
    requires cfg.resetSeconds >= 1
    ensures GateRun(cfg, step, c0, start, fs) == Gate(ChiaRun(step, c0, fs), Run(cfg, start, Reaching(step, c0, fs)))
  {
    hide CheckFrame;
    if fs != [] {
      var before := Reaching(step, c0, fs[..|fs| - 1]);
      GateIsBoth(cfg, step, c0, start, fs[..|fs| - 1]);
      assert before + [] == before;
      assert (before + [Cast(fs[|fs| - 1])])[..|before|] == before;
    }
  }

  /** For every sequence of frames and any Chia limiter: a frame is admitted exactly when Chia's limiter run
      alone would admit it and, in the band, the DIG limiter run on the frames that reach it would as well. */
  lemma GateAdmitsExactly(cfg: Config, step: Step, c0: Chia, start: nat, fs: seq<Frame>)
    requires cfg.resetSeconds >= 1 && fs != []
    ensures GateAdmitsLast(cfg, step, c0, start, fs) <==>
      ChiaAdmitsLast(step, c0, fs) &&
      (InBand(fs[|fs| - 1]) ==>
        Reaching(step, c0, fs) != [] && LastAdmitted(cfg, start, Reaching(step, c0, fs)))
  {
    hide CheckFrame;
    var before := Reaching(step, c0, fs[..|fs| - 1]);
    GateIsBoth(cfg, step, c0, start, fs[..|fs| - 1]);
    assert (before + [Cast(fs[|fs| - 1])])[..|before|] == before;
  }

  /** For the program's gate, whose DIG limiter is an inbound one: a frame below opcode 220 is admitted exactly when
      Chia's limiter admits it; from 220 on exactly when that does and, for an opcode with limits, the frames of that
      opcode which reached the DIG limiter in this window, this one included, meet them, lengths counted modulo 2^32. */
  lemma GateKthFrame(cfg: Config, step: Step, c0: Chia, start: nat, fs: seq<Frame>)
    requires cfg.resetSeconds >= 1 && cfg.incoming && fs != []
    ensures var f := fs[|fs| - 1];
      var win := InWindow(cfg, Reaching(step, c0, fs), f.opcode, Period(cfg, f.now));
      GateAdmitsLast(cfg, step, c0, start, fs) <==>
        ChiaAdmitsLast(step, c0, fs) &&
        (f.opcode >= 220 && f.opcode in cfg.limits ==>
          Meets(cfg, cfg.limits[f.opcode], |win| as real, (f.size % 0x1_0000_0000) as real, Volume(win)))
  {
    hide CheckFrame, LastAdmitted, GateAdmitsLast, ChiaAdmitsLast, Meets;
    var f := fs[|fs| - 1];
    GateAdmitsExactly(cfg, step, c0, start, fs);
    if InBand(f) && ChiaAdmitsLast(step, c0, fs) {
      var reached := Reaching(step, c0, fs);
      assert reached[|reached| - 1] == Cast(f);
      if f.opcode in cfg.limits { KthFrame(cfg, start, reached); } else { UnlimitedPasses(cfg, start, reached); }
    }
  }

  // ---- what the composition bounds ---------------------------------------------------------------

  function GateAdmissions(cfg: Config, step: Step, c0: Chia, start: nat, fs: seq<Frame>, w: nat, at: When): nat
    requires cfg.resetSeconds >= 1
  {
    if fs == [] then 0
    else
      var f := fs[|fs| - 1];
      GateAdmissions(cfg, step, c0, start, fs[..|fs| - 1], w, at) +
        (if f.opcode == w && at(f.now) && GateAdmitsLast(cfg, step, c0, start, fs) then 1 else 0)
  }

  lemma {:induction false} GateWithinDig(cfg: Config, step: Step, c0: Chia, start: nat, fs: seq<Frame>, w: nat, at: When)
    requires cfg.resetSeconds >= 1 && w >= DIG_WIRE_BAND_START
    ensures GateAdmissions(cfg, step, c0, start, fs, w, at) == Admissions(cfg, start, Reaching(step, c0, fs), w, at)
  {
    hide LastAdmitted, GateAdmitsLast, ChiaAdmitsLast, Admissions;
    NoAdmissions(cfg, start, w, at);
    if fs != [] {
      var f := fs[|fs| - 1];
      var before := Reaching(step, c0, fs[..|fs| - 1]);
      GateWithinDig(cfg, step, c0, start, fs[..|fs| - 1], w, at);
      GateAdmitsExactly(cfg, step, c0, start, fs);
      assert before + [] == before;
      AdmissionsUnfold(cfg, start, before, Cast(f), w, at);
    }
  }

  lemma NoAdmissions(cfg: Config, start: nat, w: nat, at: When)
    requires cfg.resetSeconds >= 1
    ensures Admissions(cfg, start, [], w, at) == 0
  {
  }

  lemma AdmissionsUnfold(cfg: Config, start: nat, before: seq<Frame>, f: Frame, w: nat, at: When)
    requires cfg.resetSeconds >= 1
    ensures Admissions(cfg, start, before + [f], w, at) == Admissions(cfg, start, before, w, at) +
      (if f.opcode == w && at(f.now) && LastAdmitted(cfg, start, before + [f]) then 1 else 0)
  {
    hide LastAdmitted;
    assert (before + [f])[..|before|] == before;
  }

  lemma {:induction false} ReachingMonotone(step: Step, c0: Chia, start: nat, fs: seq<Frame>)
    requires Monotone(start, fs)
    ensures Monotone(start, Reaching(step, c0, fs))
    ensures forall i :: 0 <= i < |Reaching(step, c0, fs)| ==> fs != [] && Reaching(step, c0, fs)[i].now <= fs[|fs| - 1].now
  {
    if fs != [] { ReachingMonotone(step, c0, start, fs[..|fs| - 1]); }
  }

  /** So the gate admits at most twice the scaled frequency of a band opcode in any interval of one window. */
  lemma GateIntervalBound(cfg: Config, step: Step, c0: Chia, start: nat, fs: seq<Frame>, w: nat, from: nat)
    requires cfg.resetSeconds >= 1 && w in cfg.limits && w >= DIG_WIRE_BAND_START && Monotone(start, fs)
    ensures var a := GateAdmissions(cfg, step, c0, start, fs, w, now => from <= now < from + cfg.resetSeconds);
      a > 0 ==> a as real <= 2.0 * Limit(cfg, w)
  {
    hide Admissions, GateAdmissions, Reaching, Monotone;
    ReachingMonotone(step, c0, start, fs);
    var at: When := now => from <= now < from + cfg.resetSeconds;
    GateWithinDig(cfg, step, c0, start, fs, w, at);
    AtInterval(cfg, start, Reaching(step, c0, fs), w, from, at);
    assert GateAdmissions(cfg, step, c0, start, fs, w, at)
      == GateAdmissions(cfg, step, c0, start, fs, w, now => from <= now < from + cfg.resetSeconds);
  }

  lemma AtInterval(cfg: Config, start: nat, fs: seq<Frame>, w: nat, from: nat, at: When)
    requires cfg.resetSeconds >= 1 && w in cfg.limits && Monotone(start, fs)
    requires at == (now => from <= now < from + cfg.resetSeconds)
    ensures Admissions(cfg, start, fs, w, at) > 0 ==> Admissions(cfg, start, fs, w, at) as real <= 2.0 * Limit(cfg, w)
  {
    hide Admissions;
    IntervalBound(cfg, start, fs, w, from);
    assert Admissions(cfg, start, fs, w, at)
      == Admissions(cfg, start, fs, w, now => from <= now < from + cfg.resetSeconds);
  }
}
