/**
  The static variables of zigbee_ota_control.c, ota_check_auth.c and device_identity.c and the
  functions that change them, each proved against the specification function of Device that the
  results over runs are about.
 */
module OtaControl {
  import opened Wrappers
  import opened Bytes
  import opened Protocol
  import opened DeviceSession
  import opened ProvisionPlain
  import D = Device
  import LastKnownGood

  /** The two stages of the HELLO task that are send_secure_hello, one right after the other. */
  function Greeted(d: D.Device): D.Moved {
    var m := D.StepHello(d.(hello := D.Sending), true, false);
    if m.dev.hello.Committing? then D.StepHello(m.dev, true, false) else m
  }

  class ZigbeeOtaControl {
    var cell: nat
    var context: Option<StateRecord>
    var enable: bool
    var status: nat
    var generation: nat
    const core: OtaSecureSession

    /** The machine state that these variables are part of; `rest` supplies tasks and history. */
    ghost function View(rest: D.Device): D.Device
      reads this, core
    {
      rest.(cell := cell, session := core.View(), context := context,
            enable := enable, status := status, generation := generation)
    }

    constructor (session: OtaSecureSession)
      ensures core == session && cell == 0 && context == None && !enable && status == IDLE && generation == 0
    {
      core := session;
      cell, context, enable, status, generation := 0, None, false, IDLE, 0;
    }

    /** ota_check_auth_snapshot_provisioning_context */
    method SnapshotContext(ghost rest: D.Device)
      modifies this`context
      ensures View(rest) == D.Snapshot(old(View(rest)))
    {
      var record := core.record;
      if record.Some? && record.value.state == Provisioned && record.value.counter > 0 {
        context := record;
      }
    }

    /** zigbee_ota_control_set_status up to the T frame that it publishes. */
    method ReportStatus(s: nat, ghost rest: D.Device) returns (frame: Option<Uplink>)
      modifies this`enable, this`status, this`generation
      ensures D.Moved(View(rest), frame) == D.SetStatus(old(View(rest)), s)
    {
      if status == s { return None; }
      status := s;
      if (s == PROVISIONING_COMPLETE || s == PROVISIONING_ERROR || s == PROVISIONING_TIMEOUT) && enable {
        enable := false;
        generation := D.NextGeneration(generation);
      }
      return Some(Control(enable, status));
    }

    /** zigbee_ota_control_set_enabled */
    method SetEnabled(enabled: bool, ghost rest: D.Device) returns (frame: Option<Uplink>)
      modifies this`enable, this`generation, this`context
      ensures D.Moved(View(rest), frame) == D.SetEnabled(old(View(rest)), enabled)
    {
      frame := None;
      if enable != enabled {
        enable := enabled;
        generation := D.NextGeneration(generation);
        frame := Some(Control(enable, status));
      }
      if !enabled && core.state == Provisioned {
        SnapshotContext(rest);
      }
    }

    /** zigbee_ota_control_handle_set_attr; the answer is the generation of the new apply task. */
    method HandleSetAttr(requested: bool, ghost rest: D.Device) returns (task: nat)
      requires rest.callback == D.Free
      modifies this`enable, this`generation
      ensures View(rest).(applies := rest.applies + multiset{D.Delayed(task)})
              == D.StepWriteEnable(old(View(rest)), requested).dev
    {
      enable := requested;
      generation := D.NextGeneration(generation);
      task := generation;
    }

    /** nvs_get_u64 in device_identity_next_enrollment_counter */
    method ReadCounter() returns (value: nat)
      ensures value == cell
    {
      value := cell;
    }

    /** nvs_set_u64 and nvs_commit there, for a value that was read earlier and may be out of date. */
    method CommitCounter(value: nat, ghost rest: D.Device) returns (counter: nat)
      modifies this`cell
      ensures counter == cell == value + 1
      ensures View(rest).(history := D.CommitCounter(old(View(rest)), value).history)
              == D.CommitCounter(old(View(rest)), value)
    {
      counter := value + 1;
      cell := counter;
    }

    /** send_secure_hello, when no other task moves the cell between its read and its commit. */
    method SendHello(ghost rest: D.Device) returns (frame: Option<Uplink>)
      modifies this`cell, core
      ensures var m := Greeted(old(View(rest)));
              View(rest).(hello := m.dev.hello, history := m.dev.history) == m.dev && frame == m.sent
    {
      if !enable { return None; }
      var value := ReadCounter();
      var counter := CommitCounter(value, rest);
      if counter >= 100_000_000_000 { return None; }
      var error := core.BeginHelloAttempt(counter);
      if error.Some? { return None; }
      return Some(Hello(counter));
    }

    /** The A branch of process_secure_protocol; the answer is what the response task will send. */
    method ProcessChallenge(random: nat, signed: Option<Attempt>, ghost rest: D.Device)
        returns (response: Option<Attempt>)
      requires rest.callback == D.Free
      modifies core
      ensures View(rest).(responses := rest.responses + (if response.Some? then {response.value} else {}))
           == D.StepChallenge(old(View(rest)), random, signed).dev
    {
      if !enable { return None; }
      var error, answer := core.Challenge(random, signed);
      response := answer;
    }

    /** set_status(PROVISIONING_COMPLETE) in the P callback, with the snapshot behind the T frame. */
    method ReportCompletion(ghost d: D.Device) returns (frame: Option<Uplink>)
      requires View(d) == d && d.callback == D.Completing
      modifies this`enable, this`status, this`generation, this`context
      ensures View(Reported(d)) == Reported(d) && frame == D.StepCallback(d).sent
    {
      frame := ReportStatus(PROVISIONING_COMPLETE, d);
      if frame.Some? && core.state == Provisioned {
        SnapshotContext(d);
      }
    }

    /** set_enabled(false) at the end of the P callback. */
    method Disable(ghost d: D.Device) returns (frame: Option<Uplink>)
      requires View(d) == d && d.callback == D.Disabling
      modifies this`enable, this`generation, this`context
      ensures var m := D.StepCallback(d); View(m.dev) == m.dev && frame == m.sent
    {
      frame := SetEnabled(false, d);
    }

    /**
      The P branch of process_secure_protocol when nothing preempts it: it is the first step of the
      machine's P callback and its four further effects, and the frames are those of the effects.
     */
    method ProcessProvisioning(sealed: Option<Attempt>, plain: seq<byte>, ghost rest: D.Device)
        returns (frames: seq<Uplink>)
      requires rest.callback == D.Free
      modifies this`enable, this`status, this`generation, this`context, core
      ensures var d := D.StepProvisioning(old(View(rest)), sealed, plain).dev;
              if d.callback == D.Free then View(rest) == old(View(rest)) && frames == []
              else
                var after := LastKnownGood.AfterEffects(d, 4);
                View(after) == after && after.callback == D.Free && frames == EffectFrames(d, 4)
    {
      frames := [];
      if !enable { return; }
      var error := core.Provision(sealed, plain);
      if error.Some? { return; }
      ghost var d := D.StepProvisioning(old(View(rest)), sealed, plain).dev;
      ghost var d1 := D.StepCallback(d).dev;
      assert View(d1) == d1;
      FourEffects(d);
      var first := ReportCompletion(d1);
      var second := Disable(Reported(d1));
      frames := AsFrames(first) + AsFrames(second);
    }
  }

  /** The callback behind its status report: the snapshot step falls away when the status was already set. */
  function Reported(d: D.Device): D.Device
    requires d.callback == D.Completing
  {
    if d.status == PROVISIONING_COMPLETE then D.StepCallback(d).dev else D.StepCallback(D.StepCallback(d).dev).dev
  }

  /** The frames that leave the ESP during the first k effects of a P callback. */
  function EffectFrames(d: D.Device, k: nat): seq<Uplink> {
    if k == 0 then []
    else EffectFrames(d, k - 1) + AsFrames(D.StepCallback(LastKnownGood.AfterEffects(d, k - 1)).sent)
  }

  lemma EffectsUnfold(d: D.Device)
    ensures var d1 := D.StepCallback(d).dev;
            var d2 := D.StepCallback(d1).dev;
            var d3 := D.StepCallback(d2).dev;
            && LastKnownGood.AfterEffects(d, 0) == d
            && LastKnownGood.AfterEffects(d, 1) == d1 && LastKnownGood.AfterEffects(d, 2) == d2
            && LastKnownGood.AfterEffects(d, 3) == d3 && LastKnownGood.AfterEffects(d, 4) == D.StepCallback(d3).dev
  {
    assert LastKnownGood.AfterEffects(d, 0) == d;
    assert LastKnownGood.AfterEffects(d, 1) == D.Step(LastKnownGood.AfterEffects(d, 0), D.ContinueCallback).dev;
    assert LastKnownGood.AfterEffects(d, 2) == D.Step(LastKnownGood.AfterEffects(d, 1), D.ContinueCallback).dev;
    assert LastKnownGood.AfterEffects(d, 3) == D.Step(LastKnownGood.AfterEffects(d, 2), D.ContinueCallback).dev;
    assert LastKnownGood.AfterEffects(d, 4) == D.Step(LastKnownGood.AfterEffects(d, 3), D.ContinueCallback).dev;
  }

  lemma FramesUnfold(d: D.Device, k: nat)
    requires k == 4
    ensures EffectFrames(d, k) == AsFrames(D.StepCallback(LastKnownGood.AfterEffects(d, k - 4)).sent)
                                + AsFrames(D.StepCallback(LastKnownGood.AfterEffects(d, k - 3)).sent)
                                + AsFrames(D.StepCallback(LastKnownGood.AfterEffects(d, k - 2)).sent)
                                + AsFrames(D.StepCallback(LastKnownGood.AfterEffects(d, k - 1)).sent)
  {
    FramesGrow(d, k - 1);
    FramesGrow(d, k - 2);
    FramesGrow(d, k - 3);
    FramesGrow(d, k - 4);
  }

  lemma FramesGrow(d: D.Device, k: nat)
    ensures EffectFrames(d, k + 1)
            == EffectFrames(d, k) + AsFrames(D.StepCallback(LastKnownGood.AfterEffects(d, k)).sent)
    ensures k == 0 ==> EffectFrames(d, k) == []
  {
  }

  lemma CallbackPath(d: D.Device)
    requires d.callback == D.Completing
    ensures var d2 := D.StepCallback(d).dev;
            && Reported(d).callback == D.Disabling
            && (d.status == PROVISIONING_COMPLETE ==> d2.callback == D.Disabling && D.StepCallback(d).sent == None)
            && (d.status != PROVISIONING_COMPLETE ==> d2.callback == D.Snapshotting && D.StepCallback(d2).sent == None)
  {
  }

  lemma FourEffects(d: D.Device)
    requires d.callback == D.Stored
    ensures var d1 := D.StepCallback(d).dev;
            && d1.callback == D.Completing && Reported(d1).callback == D.Disabling
            && LastKnownGood.AfterEffects(d, 4) == D.StepCallback(Reported(d1)).dev
            && LastKnownGood.AfterEffects(d, 4).callback == D.Free
            && EffectFrames(d, 4) == AsFrames(D.StepCallback(d1).sent) + AsFrames(D.StepCallback(Reported(d1)).sent)
  {
    EffectsUnfold(d);
    FramesUnfold(d, 4);
    CallbackPath(D.StepCallback(d).dev);
  }

  function RecordOf(a: Attempt): Option<StateRecord> { Some(StateRecord(Provisioned, a.counter, a.random)) }

  /** The ESP when the attempt is committed: configuration and record are written, the key has left RAM. */
  function Committed(d: D.Device, c: Config): D.Device {
    var a := Attempt(d.session.counter, d.session.random);
    d.(session := Session(Provisioned, a.counter, 0, None, RecordOf(a), Some(c)), callback := D.Completing,
       history := d.history.(authenticated := d.history.authenticated + [D.Authentic(a, c)],
                             completed := d.history.completed + [a], finished := false, dropped := false))
  }

  lemma AcceptedFrame(d: D.Device, sealed: Option<Attempt>, plain: seq<byte>, c: Config)
    requires d.callback == D.Free && D.StepProvisioning(d, sealed, plain).dev.callback == D.Stored
    requires Parse(plain) == Success(c)
    ensures var d0 := D.StepProvisioning(d, sealed, plain).dev;
            && d.enable && d0.enable && d0.session.counter == d.session.counter && d0.generation == d.generation
            && sealed == Some(Attempt(d.session.counter, d.session.random))
            && D.StepCallback(d0).dev == Committed(d, c)
  {
  }

  lemma ReportedState(d: D.Device)
    requires d.callback == D.Completing && d.enable && d.session.state == Provisioned
    ensures var d' := D.StepCallback(Reported(d)).dev;
            && d' == d.(callback := D.Free, enable := false, status := 0x42,
                        generation := (d.generation + 1) % 0x1_0000_0000, context := d'.context,
                        history := d.history.(finished := true))
            && (D.ValidContext(d.session.record) ==> d'.context == d.session.record)
            && AsFrames(D.StepCallback(d).sent) + AsFrames(D.StepCallback(Reported(d)).sent) == [Control(false, 0x42)]
  {
  }

  lemma StoredFrameReports(d: D.Device)
    requires d.callback == D.Stored && d.enable && d.session.counter > 0
    ensures var d1 := D.StepCallback(d).dev;
            && EffectFrames(d, 4) == [Control(false, 0x42)]
            && LastKnownGood.AfterEffects(d, 4)
               == d1.(callback := D.Free, enable := false, status := 0x42, context := d1.session.record,
                      generation := (d.generation + 1) % 0x1_0000_0000, history := d1.history.(finished := true))
  {
    FourEffects(d);
    ReportedState(D.StepCallback(d).dev);
  }

  /**
    An accepted P frame whose callback nothing preempts, from every state: exactly one T frame leaves, with status
    0x42 and the flag off, the configuration is the one that was sealed, and record and context name the attempt.
   */
  lemma AcceptedFrameReports(d: D.Device, sealed: Option<Attempt>, plain: seq<byte>, c: Config)
    requires d.callback == D.Free && D.StepProvisioning(d, sealed, plain).dev.callback == D.Stored
    requires Parse(plain) == Success(c) && d.session.counter > 0
    ensures var d0 := D.StepProvisioning(d, sealed, plain).dev; var d1 := Committed(d, c);
            && sealed == Some(Attempt(d.session.counter, d.session.random))
            && EffectFrames(d0, 4) == [Control(false, 0x42)]
            && LastKnownGood.AfterEffects(d0, 4)
               == d1.(callback := D.Free, enable := false, status := 0x42, context := d1.session.record,
                      generation := (d.generation + 1) % 0x1_0000_0000, history := d1.history.(finished := true))
  {
    var d0 := D.StepProvisioning(d, sealed, plain).dev;
    AcceptedFrame(d, sealed, plain, c);
    StoredFrameReports(d0);
  }
}
