/** Timed survival of an idle link: exactly which tick intervals and delays keep both ends open. */
module Keepalive {
  import opened Base
  import opened Transports
  import opened Links

  /** The clocks of one idle link: last activity of both ends, the initiator's last keepalive, until
      when each end's dedup remembers the other's (byte-identical) packet, the send times of the
      packets in flight, and the last tick of each end. */
  datatype Clocks = Clocks(
    openA: bool, openB: bool, actA: nat, actB: nat, keep: nat, seenA: nat, seenB: nat,
    toB: seq<nat>, toA: seq<nat>, tickA: nat, tickB: nat, now: nat)

  datatype Step =
    | TickA(at: nat)
    | TickB(at: nat)
    | ArriveB(i: nat, at: nat)
    | ArriveA(i: nat, at: nat)

  function Removed(s: seq<nat>, i: nat): seq<nat>
    requires i < |s|
  {
    s[..i] + s[i + 1..]
  }

  /** Ticks at most `T` apart, packets under way at most `R`, time never backwards. */
  predicate Timely(s: Clocks, step: Step, T: nat, R: nat) {
    && s.now <= step.at <= s.tickA + T && step.at <= s.tickB + T
    && (forall x | x in s.toB :: step.at <= x + R)
    && (forall x | x in s.toA :: step.at <= x + R)
    && (step.ArriveB? ==> step.i < |s.toB|)
    && (step.ArriveA? ==> step.i < |s.toA|)
  }

  function Next(s: Clocks, step: Step): Clocks
    requires step.ArriveB? ==> step.i < |s.toB|
    requires step.ArriveA? ==> step.i < |s.toA|
  {
    match step
    case TickA(t) =>
      var stale := s.openA && t >= s.actA + STALE_SECS;
      var due := s.openA && !stale && t >= s.keep + KEEPALIVE_SECS;
      s.(openA := s.openA && !stale, keep := if due then t else s.keep,
         toB := if due then s.toB + [t] else s.toB, tickA := t, now := t)
    case TickB(t) =>
      s.(openB := s.openB && t < s.actB + STALE_SECS, tickB := t, now := t)
    case ArriveB(i, t) =>
      var heard := s.seenB <= t;
      s.(toB := Removed(s.toB, i), seenB := if heard then t + PACKET_TTL else s.seenB,
         actB := if heard && s.openB then t else s.actB,
         toA := if heard && s.openB then s.toA + [t] else s.toA, now := t)
    case ArriveA(i, t) =>
      var heard := s.seenA <= t;
      s.(toA := Removed(s.toA, i), seenA := if heard then t + PACKET_TTL else s.seenA,
         actA := if heard && s.openA then t else s.actA, now := t)
  }

  ghost predicate RunOf(s: Clocks, steps: seq<Step>, T: nat, R: nat)
    decreases |steps|
  {
    steps == [] || (Timely(s, steps[0], T, R) && RunOf(Next(s, steps[0]), steps[1..], T, R))
  }

  ghost function End(s: Clocks, steps: seq<Step>, T: nat, R: nat): Clocks
    requires RunOf(s, steps, T, R)
    decreases |steps|
  {
    if steps == [] then s else End(Next(s, steps[0]), steps[1..], T, R)
  }

  /** A link just established: both ends open, nothing in flight, no keepalive seen, and both were
      active since the initiator last reset its keepalive clock. */
  predicate Established(s: Clocks, T: nat) {
    && s.openA && s.openB && s.toB == [] && s.toA == [] && s.seenA == 0 && s.seenB == 0
    && s.keep <= s.actA <= s.now && s.keep <= s.actB <= s.now
    && s.tickA <= s.now <= s.tickA + T && s.tickB <= s.now <= s.tickB + T
    && s.tickA < s.keep + KEEPALIVE_SECS
  }

  // ------------------------------------------------------------------ sufficient

  predicate Tolerable(T: nat, R: nat) {
    R <= 150 && T + 2 * R <= 360
  }

  /** Between two keepalives: idle, a keepalive under way, or its answer under way. */
  predicate Healthy(s: Clocks, T: nat, R: nat) {
    && s.openA && s.openB
    && s.keep <= s.now && s.tickA <= s.now && s.tickB <= s.now && s.now <= s.tickA + T
    && s.actA <= s.now && s.actB <= s.now
    && (|| (&& s.toB == [] && s.toA == [] && s.keep <= s.actA && s.keep <= s.actB && s.tickA < s.keep + 360
            && s.seenB <= s.keep + R + 60 && s.seenA <= s.keep + 2 * R + 60)
        || (&& s.toB == [s.keep] && s.toA == [] && s.keep < s.actA + 360 + T && s.keep < s.actB + 360 + T
            && s.seenB <= s.keep && s.seenA <= s.keep && s.now <= s.keep + R)
        || (&& s.toB == [] && |s.toA| == 1 && s.keep <= s.toA[0] <= s.keep + R
            && s.keep < s.actA + 360 + T && s.actB == s.toA[0]
            && s.seenB <= s.keep + R + 60 && s.seenA <= s.keep && s.now <= s.toA[0] + R))
  }

  lemma TickHealthy(s: Clocks, step: Step, T: nat, R: nat)
    requires Tolerable(T, R) && Healthy(s, T, R) && Timely(s, step, T, R) && (step.TickA? || step.TickB?)
    ensures Healthy(Next(s, step), T, R)
  {
    if s.toB == [s.keep] { assert s.keep in s.toB; }
    if |s.toA| == 1 { assert s.toA[0] in s.toA; }
    hide Removed;
  }

  lemma ArrivalHealthy(s: Clocks, step: Step, T: nat, R: nat)
    requires Tolerable(T, R) && Healthy(s, T, R) && Timely(s, step, T, R) && (step.ArriveA? || step.ArriveB?)
    ensures Healthy(Next(s, step), T, R)
  {
    if step.ArriveB? {
      assert s.keep in s.toB;
      assert Removed(s.toB, step.i) == [];
    } else {
      assert s.toA[0] in s.toA;
      assert Removed(s.toA, step.i) == [];
    }
    hide Removed;
  }

  lemma StepHealthy(s: Clocks, step: Step, T: nat, R: nat)
    requires Tolerable(T, R) && Healthy(s, T, R) && Timely(s, step, T, R)
    ensures Healthy(Next(s, step), T, R)
  {
    hide Healthy, Timely, Next;
    if step.TickA? || step.TickB? {
      TickHealthy(s, step, T, R);
    } else {
      ArrivalHealthy(s, step, T, R);
    }
  }

  /** With delays of at most 150 seconds and T + 2R <= 360, no tick ever closes an idle link. */
  lemma {:induction false} Survives(s: Clocks, steps: seq<Step>, T: nat, R: nat)
    requires Tolerable(T, R) && Healthy(s, T, R) && RunOf(s, steps, T, R)
    ensures Healthy(End(s, steps, T, R), T, R)
    decreases |steps|
  {
    if steps != [] {
      StepHealthy(s, steps[0], T, R);
      Survives(Next(s, steps[0]), steps[1..], T, R);
    }
  }

  // ------------------------------------------------------------------ necessary

  ghost predicate Reaches(s: Clocks, s': Clocks, T: nat, R: nat) {
    exists steps :: RunOf(s, steps, T, R) && End(s, steps, T, R) == s'
  }

  lemma {:induction false} RunOn(s: Clocks, a: seq<Step>, b: seq<Step>, T: nat, R: nat)
    requires RunOf(s, a, T, R) && RunOf(End(s, a, T, R), b, T, R)
    ensures RunOf(s, a + b, T, R) && End(s, a + b, T, R) == End(End(s, a, T, R), b, T, R)
    decreases |a|
  {
    if a == [] {
      assert a + b == b;
    } else {
      RunOn(Next(s, a[0]), a[1..], b, T, R);
      assert (a + b)[1..] == a[1..] + b;
    }
  }

  lemma ReachesOn(s: Clocks, m: Clocks, e: Clocks, T: nat, R: nat)
    requires Reaches(s, m, T, R) && Reaches(m, e, T, R)
    ensures Reaches(s, e, T, R)
  {
    var a :| RunOf(s, a, T, R) && End(s, a, T, R) == m;
    var b :| RunOf(m, b, T, R) && End(m, b, T, R) == e;
    RunOn(s, a, b, T, R);
    hide RunOf, End;
  }

  lemma OneStep(s: Clocks, step: Step, T: nat, R: nat)
    requires Timely(s, step, T, R)
    ensures Reaches(s, Next(s, step), T, R)
  {
    assert [step][1..] == [];
    assert RunOf(Next(s, step), [], T, R);
    assert RunOf(s, [step], T, R);
    assert End(s, [step], T, R) == Next(s, step);
    hide Timely, Next;
  }

  /** Nothing happens for `n` seconds but ticks. */
  predicate Calm(s: Clocks, n: nat, R: nat) {
    && s.openA && s.openB && s.tickA == s.now && s.tickB == s.now
    && s.now + n < s.actA + 720 && s.now + n < s.actB + 720 && s.now + n < s.keep + 360
    && (forall x | x in s.toB :: s.now + n <= x + R)
    && (forall x | x in s.toA :: s.now + n <= x + R)
  }

  function Later(s: Clocks, n: nat): Clocks {
    s.(tickA := s.now + n, tickB := s.now + n, now := s.now + n)
  }

  lemma {:induction false} CalmTicks(s: Clocks, n: nat, T: nat, R: nat)
    requires T >= 1 && Calm(s, n, R)
    ensures Reaches(s, Later(s, n), T, R)
    decreases n
  {
    if n == 0 {
      assert RunOf(s, [], T, R) && End(s, [], T, R) == s;
    } else {
      var t := s.now + 1;
      var m := Next(s, TickA(t));
      OneStep(s, TickA(t), T, R);
      OneStep(m, TickB(t), T, R);
      ReachesOn(s, m, Later(s, 1), T, R);
      CalmTicks(Later(s, 1), n - 1, T, R);
      assert Later(Later(s, 1), n - 1) == Later(s, n);
      ReachesOn(s, Later(s, 1), Later(s, n), T, R);
      hide Reaches;
    }
  }

  /** `n` calm seconds, then one step. */
  lemma CalmThen(s: Clocks, n: nat, step: Step, T: nat, R: nat) returns (e: Clocks)
    requires T >= 1 && Calm(s, n, R) && Timely(Later(s, n), step, T, R)
    ensures e == Next(Later(s, n), step) && Reaches(s, e, T, R)
  {
    e := Next(Later(s, n), step);
    hide Reaches;
    CalmTicks(s, n, T, R);
    OneStep(Later(s, n), step, T, R);
    ReachesOn(s, Later(s, n), e, T, R);
  }

  /** A tick of the initiator and then of the responder at the same time, after `n` calm seconds. */
  lemma CalmThenTicks(s: Clocks, n: nat, at: nat, T: nat, R: nat) returns (e: Clocks)
    requires T >= 1 && Calm(s, n, R) && Timely(Later(s, n), TickA(at), T, R)
    requires s.toB == [] && s.toA == []
    ensures e == Next(Next(Later(s, n), TickA(at)), TickB(at)) && Reaches(s, e, T, R)
  {
    var m := CalmThen(s, n, TickA(at), T, R);
    e := Next(m, TickB(at));
    hide Reaches;
    OneStep(m, TickB(at), T, R);
    ReachesOn(s, m, e, T, R);
  }

  /** The state the failing runs start from: established and ticked at second `b`. */
  function StartAt(b: nat): Clocks {
    Clocks(true, true, b, b, b, 0, 0, [], [], b, b, b)
  }

  lemma Finish(s: Clocks, m: Clocks, n: nat, at: nat, T: nat, R: nat) returns (e: Clocks)
    requires T >= 1 && Reaches(s, m, T, R) && Calm(m, n, R) && Timely(Later(m, n), TickA(at), T, R)
    requires at >= m.actA + 720
    ensures Reaches(s, e, T, R) && !e.openA
  {
    e := CalmThen(m, n, TickA(at), T, R);
    hide Reaches;
    ReachesOn(s, m, e, T, R);
  }

  /** T + 2R > 360: a slow tick and slow packets leave the initiator without an answer for 720 s. */
  lemma TooSlow(b: nat, T: nat, R: nat) returns (e: Clocks)
    requires T >= 1 && T + 2 * R > 360
    ensures Reaches(StartAt(b), e, T, R) && !e.openA
  {
    var s := StartAt(b);
    hide Reaches;
    if T >= 361 {
      e := CalmThen(s, 359, TickA(b + 359 + T), T, R);
    } else {
      var k := b + 359 + T;
      var m := CalmThenTicks(s, 359, k, T, R);
      assert m == Clocks(true, true, b, b, k, 0, 0, [k], [], k, k, k);
      var d := 361 - T;
      if d <= R {
        e := Finish(s, m, d - 1, b + 720, T, R);
      } else {
        var m2 := CalmThen(m, R, ArriveB(0, k + R), T, R);
        assert Removed([k], 0) == [];
        assert m2 == Clocks(true, true, b, k + R, k, 0, k + R + 60, [], [k + R], k + R, k + R, k + R);
        ReachesOn(s, m, m2, T, R);
        e := Finish(s, m2, d - R - 1, b + 720, T, R);
      }
    }
  }

  /** One round with slow packets, then one with instant ones whose answer the dedup drops. */
  lemma DroppedAnswer(b: nat, T: nat, R: nat) returns (m: Clocks)
    requires T >= 1 && R >= 151 && T + 2 * R <= 360
    ensures var k2 := b + 720;
            && Reaches(StartAt(b), m, T, R)
            && m == Clocks(true, true, b + 360 + 2 * R, k2, k2, b + 420 + 2 * R, k2 + 60, [], [], k2, k2, k2)
  {
    var s := StartAt(b);
    var k := b + 360;
    hide Reaches;
    var m1 := CalmThenTicks(s, 359, k, T, R);
    assert m1 == Clocks(true, true, b, b, k, 0, 0, [k], [], k, k, k);
    var m2 := CalmThen(m1, R, ArriveB(0, k + R), T, R);
    assert Removed([k], 0) == [];
    assert m2 == Clocks(true, true, b, k + R, k, 0, k + R + 60, [], [k + R], k + R, k + R, k + R);
    ReachesOn(s, m1, m2, T, R);
    var v := k + 2 * R;
    var m3 := CalmThen(m2, R, ArriveA(0, v), T, R);
    assert Removed([k + R], 0) == [];
    assert m3 == Clocks(true, true, v, k + R, k, v + 60, k + R + 60, [], [], v, v, v);
    ReachesOn(s, m2, m3, T, R);
    m := DroppedRound(m3, k, T, R);
    ReachesOn(s, m3, m, T, R);
  }

  lemma DroppedRound(m3: Clocks, k: nat, T: nat, R: nat) returns (m: Clocks)
    requires T >= 1 && R >= 151 && T + 2 * R <= 360
    requires var v := k + 2 * R; m3 == Clocks(true, true, v, k + R, k, v + 60, k + R + 60, [], [], v, v, v)
    ensures var k2 := k + 360;
            && Reaches(m3, m, T, R)
            && m == Clocks(true, true, k + 2 * R, k2, k2, k + 60 + 2 * R, k2 + 60, [], [], k2, k2, k2)
  {
    var v, k2 := k + 2 * R, k + 360;
    hide Reaches;
    var m4 := CalmThenTicks(m3, 359 - 2 * R, k2, T, R);
    assert m4 == Clocks(true, true, v, k + R, k2, v + 60, k + R + 60, [k2], [], k2, k2, k2);
    assert Removed([k2], 0) == [];
    OneStep(m4, ArriveB(0, k2), T, R);
    var m5 := Next(m4, ArriveB(0, k2));
    assert m5 == Clocks(true, true, v, k2, k2, v + 60, k2 + 60, [], [k2], k2, k2, k2);
    ReachesOn(m3, m4, m5, T, R);
    OneStep(m5, ArriveA(0, k2), T, R);
    m := Next(m5, ArriveA(0, k2));
    ReachesOn(m3, m5, m, T, R);
  }

  /** R > 150: the next round's slow answer then comes too late. */
  lemma TooLate(b: nat, T: nat, R: nat) returns (e: Clocks)
    requires T >= 1 && R >= 151 && T + 2 * R <= 360
    ensures Reaches(StartAt(b), e, T, R) && !e.openA
  {
    var s := StartAt(b);
    hide Reaches;
    var m := DroppedAnswer(b, T, R);
    var k3 := b + 1080;
    var m1 := CalmThenTicks(m, 359, k3, T, R);
    assert m1 == Clocks(true, true, b + 360 + 2 * R, b + 720, k3, b + 420 + 2 * R, b + 780, [k3], [], k3, k3, k3);
    ReachesOn(s, m, m1, T, R);
    var m2 := CalmThen(m1, R, ArriveB(0, k3 + R), T, R);
    assert Removed([k3], 0) == [];
    ReachesOn(s, m1, m2, T, R);
    e := Finish(s, m2, R - 1, k3 + 2 * R, T, R);
  }

  /** Every timed run of an idle link keeps both ends open. */
  ghost predicate AlwaysSurvives(T: nat, R: nat) {
    forall s, e | Established(s, T) && Reaches(s, e, T, R) :: e.openA && e.openB
  }

  /** An idle link survives every timed run iff delays are at most 150 s and T + 2R <= 360. */
  lemma SurvivalExactly(T: nat, R: nat)
    requires T >= 1
    ensures AlwaysSurvives(T, R) <==> Tolerable(T, R)
  {
    if Tolerable(T, R) {
      forall s, e | Established(s, T) && Reaches(s, e, T, R) ensures e.openA && e.openB {
        var steps :| RunOf(s, steps, T, R) && End(s, steps, T, R) == e;
        Survives(s, steps, T, R);
      }
    } else {
      assert Established(StartAt(1000), T);
      hide Reaches, Established;
      var e: Clocks;
      if T + 2 * R > 360 {
        e := TooSlow(1000, T, R);
      } else {
        e := TooLate(1000, T, R);
      }
    }
  }
}
