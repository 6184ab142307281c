/**
  The generation number of zigbee_ota_control.c: a delayed apply task may act only while no later
  command, terminal status or switch-off has overtaken it.
 */
module EnableGeneration {
  import opened Wrappers
  import opened Device
  import opened LastKnownGood

  const MODULUS := 0x1_0000_0000

  predicate NoRestart(evs: seq<Event>) { forall i | 0 <= i < |evs| :: !evs[i].Restart? }

  /** How often the generation was advanced in a run. */
  function Advances(d: Device, evs: seq<Event>): nat
    decreases |evs|
  {
    if evs == [] then 0
    else
      var d1 := Run(d, evs[..|evs| - 1]);
      Advances(d, evs[..|evs| - 1]) + if Step(d1, evs[|evs| - 1]).dev.generation == d1.generation then 0 else 1
  }

  ghost predicate AtMostOnce(g: nat, g': nat) { g' == g || g' == NextGeneration(g) }

  lemma HelloAdvancesOnce(d: Device, networkReady: bool, elapsed: bool)
    ensures AtMostOnce(d.generation, StepHello(d, networkReady, elapsed).dev.generation)
  {
  }

  lemma ApplyAdvancesOnce(d: Device, t: Apply)
    ensures AtMostOnce(d.generation, StepApply(d, t).dev.generation)
  {
  }

  lemma CallbackAdvancesOnce(d: Device)
    ensures AtMostOnce(d.generation, StepCallback(d).dev.generation)
  {
  }

  lemma StepAdvancesOnce(d: Device, e: Event)
    requires !e.Restart?
    ensures AtMostOnce(d.generation, Step(d, e).dev.generation)
  {
    match e
    case ContinueCallback => CallbackAdvancesOnce(d);
    case RunHello(n, x) => HelloAdvancesOnce(d, n, x);
    case RunApply(t) => ApplyAdvancesOnce(d.(applies := d.applies - multiset{t}), t);
    case _ =>
  }

  /** s_enable_generation after n increments. */
  function AdvancedBy(g: nat, n: nat): nat { if n == 0 then g else NextGeneration(AdvancedBy(g, n - 1)) }

  lemma CountStep(g0: nat, n: nat, g: nat, g': nat)
    requires g == AdvancedBy(g0, n) && AtMostOnce(g, g')
    ensures g' == AdvancedBy(g0, n + if g' == g then 0 else 1)
  {
  }

  lemma {:induction false} GenerationCountsAdvances(d: Device, evs: seq<Event>)
    requires NoRestart(evs)
    ensures Run(d, evs).generation == AdvancedBy(d.generation, Advances(d, evs))
    decreases |evs|
  {
    if evs != [] {
      var before, e := evs[..|evs| - 1], evs[|evs| - 1];
      GenerationCountsAdvances(d, before);
      var d1 := Run(d, before);
      StepAdvancesOnce(d1, e);
      CountStep(d.generation, Advances(d, before), d1.generation, Step(d1, e).dev.generation);
    }
  }

  lemma NextOfMod(a: nat)
    ensures NextGeneration(a % MODULUS) == (a + 1) % MODULUS
  {
    var q, r := a / MODULUS, a % MODULUS;
    if r + 1 < MODULUS {
      assert a + 1 == q * MODULUS + (r + 1);
    } else {
      assert a + 1 == (q + 1) * MODULUS;
    }
  }

  lemma {:induction false} AdvancedBySum(g: nat, n: nat)
    requires g < MODULUS
    ensures AdvancedBy(g, n) == (g + n) % MODULUS
  {
    if n > 0 {
      AdvancedBySum(g, n - 1);
      NextOfMod(g + n - 1);
    }
  }

  lemma WrapsOnlyAtModulus(g: nat, n: nat)
    requires g < MODULUS
    ensures (g + n) % MODULUS == g <==> n % MODULUS == 0
  {
    var q, r := n / MODULUS, n % MODULUS;
    assert g + n == q * MODULUS + (g + r);
    if g + r < MODULUS {
      assert (g + n) % MODULUS == g + r;
    } else {
      assert g + n == (q + 1) * MODULUS + (g + r - MODULUS);
      assert (g + n) % MODULUS == g + r - MODULUS;
    }
  }

  lemma DelayedActs(d: Device, g: nat)
    ensures StepApply(d, Delayed(g)) == Moved(d, None) <==> g != d.generation
  {
    var p := Publishing(d.enable);
    assert (d.applies + multiset{p})[p] == d.applies[p] + 1;
  }

  lemma OvertakenAfter(now: Device, g: nat, n: nat)
    requires g < MODULUS && now.generation == AdvancedBy(g, n)
    ensures StepApply(now, Delayed(g)) == Moved(now, None) <==> n % MODULUS != 0
  {
    AdvancedBySum(g, n);
    WrapsOnlyAtModulus(g, n);
    DelayedActs(now, g);
  }

  /**
    A delayed task acts exactly if the generation was advanced a multiple of 2^32 times since it was
    started, so in practice only the most recent command acts.
   */
  lemma OnlyLatestCommandActs(d: Device, evs: seq<Event>)
    requires NoRestart(evs) && d.generation < MODULUS
    ensures StepApply(Run(d, evs), Delayed(d.generation)) == Moved(Run(d, evs), None)
            <==> Advances(d, evs) % MODULUS != 0
  {
    GenerationCountsAdvances(d, evs);
    OvertakenAfter(Run(d, evs), d.generation, Advances(d, evs));
  }

  /** Every new command overtakes the apply workers started before it. */
  lemma CommandAdvances(d: Device, evs: seq<Event>, requested: bool)
    requires Run(d, evs).callback == Free && Run(d, evs).generation < MODULUS
    ensures Advances(d, evs + [WriteEnable(requested)]) == Advances(d, evs) + 1
    ensures var g := Run(d, evs + [WriteEnable(requested)]); g.enable == requested && Delayed(g.generation) in g.applies
  {
    var more := evs + [WriteEnable(requested)];
    assert more[..|more| - 1] == evs;
    assert NextGeneration(Run(d, evs).generation) != Run(d, evs).generation;
  }
}
