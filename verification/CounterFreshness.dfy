/**
  The counters of H and S frames over all runs of server, ESP and channels. One cell feeds both kinds of
  frames; the server keeps one high-water mark for each kind, so a kind stays fresh as long as its own
  numbers renew, even if both kinds share some.
 */
module CounterFreshness {
  import opened Wrappers
  import opened Protocol
  import Device
  import CounterCell
  import Listener
  import opened ProvisioningRun

  /** The number that a frame of the chosen kind carries. */
  function Number(f: Uplink, hello: bool): Option<nat> {
    match f
    case Hello(c) => if hello then Some(c) else None
    case Status(c) => if hello then None else Some(c)
    case _ => None
  }

  /** Frames of one kind from index `from` on are above the mark, all are in order, none is above the last number. */
  ghost predicate InLine(u: seq<Uplink>, hello: bool, from: nat, mark: nat, top: nat) {
    && mark <= top
    && (forall i | 0 <= i < |u| && Number(u[i], hello).Some? ::
          (i >= from ==> Number(u[i], hello).value > mark) && Number(u[i], hello).value <= top)
    && (forall i, j | 0 <= i < j < |u| && Number(u[i], hello).Some? && Number(u[j], hello).Some? ::
          Number(u[i], hello).value < Number(u[j], hello).value)
  }

  function Seen(s: System): nat { if s.last.Some? then 1 else 0 }

  /** The mark of one kind once the callback is through with the frame it is working on. */
  function Mark(e: Listener.Entry, hello: bool): nat {
    if !hello then e.statusMark
    else if e.callback.HelloChecked? then Listener.Raised(e.helloMark, e.callback.counter)
    else e.helloMark
  }

  /** The number of the last frame of one kind. */
  function Top(d: Device.Device, hello: bool): nat { if hello then d.history.lastHello else d.history.lastStatus }

  ghost predicate Ordered(s: System, hello: bool) {
    InLine(Stream(s), hello, Seen(s), Mark(s.server, hello), Top(s.dev, hello))
  }

  lemma AppendInLine(u: seq<Uplink>, v: seq<Uplink>, hello: bool, from: nat, mark: nat, top: nat, top': nat)
    requires InLine(u, hello, from, mark, top) && |v| <= 1 && from <= |u| && top <= top'
    requires v != [] && Number(v[0], hello).Some? ==> top < Number(v[0], hello).value <= top'
    ensures InLine(u + v, hello, from, mark, top')
  {
  }

  lemma DeviceKeepsLine(s: System, ev: Device.Event, hello: bool)
    requires Ordered(s, hello) && Device.Renews(s.dev, ev, hello)
    ensures Ordered(Step(s, OnDevice(ev)), hello)
  {
    if CanArrive(s, ev) {
      var m := Device.Step(s.dev, ev);
      Device.SentTellsStatus(s.dev, ev);
      CounterCell.FramesCarryTaken(s.dev, ev);
      AppendInLine(Stream(s), Frame(m), hello, Seen(s), Mark(s.server, hello), Top(s.dev, hello), Top(m.dev, hello));
      assert Stream(Step(s, OnDevice(ev))) == Stream(s) + Frame(m);
    }
  }

  lemma CutInLine(u: seq<Uplink>, k: nat, hello: bool, from: nat, mark: nat, top: nat)
    requires k < |u| && InLine(u, hello, from, mark, top)
    ensures InLine(u[..k] + u[k + 1..], hello, from, mark, top)
  {
    var v := u[..k] + u[k + 1..];
    assert forall i | 0 <= i < |v| :: v[i] == u[if i < k then i else i + 1];
  }

  lemma LoseKeepsLine(s: System, i: nat, hello: bool)
    requires Ordered(s, hello)
    ensures Ordered(Step(s, Lose(i)), hello)
  {
    if i < |s.up| {
      var head := if s.last.Some? then [s.last.value] else [];
      StreamCut(head, s.up, i);
      CutInLine(Stream(s), |head| + i, hello, Seen(s), Mark(s.server, hello), Top(s.dev, hello));
    }
  }

  lemma PopKeepsLine(s: System, hello: bool)
    requires Ordered(s, hello) && s.up != []
    ensures Ordered(Popped(s), hello)
  {
    var u, v := Stream(s), Stream(Popped(s));
    assert forall i | 0 <= i < |v| :: v[i] == u[Seen(s) + i];
  }

  /** A frame that starts the line raises the mark to its number at most. */
  lemma ReceiveKeepsLine(s: System, hello: bool)
    requires Ordered(s, hello) && s.server.callback == Listener.Ready && s.last.Some?
    ensures Ordered(Step(s, Redeliver), hello)
  {
    var u, f := Stream(s), s.last.value;
    assert u[0] == f;
    assert Stream(Step(s, Redeliver)) == u;
  }

  lemma ProceedKeepsLine(s: System, o: Listener.Oracle, hello: bool)
    requires Ordered(s, hello)
    ensures Ordered(Step(s, Proceed(o)), hello)
  {
    assert Stream(Step(s, Proceed(o))) == Stream(s);
  }

  lemma DeliverKeepsLine(s: System, hello: bool)
    requires Ordered(s, hello) && s.server.callback == Listener.Ready && s.up != []
    ensures Ordered(Step(s, Deliver), hello)
  {
    PopKeepsLine(s, hello);
    ReceiveKeepsLine(Popped(s), hello);
    assert Step(s, Deliver) == Step(Popped(s), Redeliver);
  }

  lemma TableKeepsLine(s: System, e: Event, hello: bool)
    requires Ordered(s, hello) && (e.Tick? || e.ServerRestart?)
    ensures Ordered(Step(s, e), hello)
  {
    assert Stream(Step(s, e)) == Stream(s);
  }

  lemma StepKeepsLine(s: System, e: Event, hello: bool)
    requires Ordered(s, hello) && RenewingStep(s, e, hello)
    ensures Ordered(Step(s, e), hello)
  {
    match e
    case OnDevice(ev) => DeviceKeepsLine(s, ev, hello);
    case Deliver => if s.server.callback == Listener.Ready && s.up != [] { DeliverKeepsLine(s, hello); }
    case Redeliver => if s.server.callback == Listener.Ready && s.last.Some? { ReceiveKeepsLine(s, hello); }
    case Lose(i) => LoseKeepsLine(s, i, hello);
    case Proceed(o) => ProceedKeepsLine(s, o, hello);
    case Tick(_) => TableKeepsLine(s, e, hello);
    case ServerRestart => TableKeepsLine(s, e, hello);
  }

  lemma {:induction false} RunKeepsLine(evs: seq<Event>, hello: bool)
    requires RenewingRun(evs, hello)
    ensures Ordered(Run(evs), hello)
  {
    if evs != [] {
      RunKeepsLine(evs[..|evs| - 1], hello);
      StepKeepsLine(Run(evs[..|evs| - 1]), evs[|evs| - 1], hello);
    }
  }

  /**
    A frame that the server has not seen before is never stale, as long as the numbers of its kind renew,
    whatever the other kind does.
   */
  lemma NewFramesAreNeverStale(evs: seq<Event>, hello: bool)
    requires RenewingRun(evs, hello)
    requires Run(evs).up != [] && Run(evs).server.callback == Listener.Ready
    ensures var s := Run(evs); var n := Number(s.up[0], hello);
            n.Some? ==> n.value > if hello then s.server.helloMark else s.server.statusMark
  {
    RunKeepsLine(evs, hello);
    var s := Run(evs);
    assert Stream(s)[Seen(s)] == s.up[0];
  }

  /** In a run in turn the numbers of both kinds renew. */
  lemma {:induction false} InTurnRunsRenew(evs: seq<Event>, hello: bool)
    requires forall i | 0 <= i < |evs| ::
               evs[i].OnDevice? ==> Device.InTurn(Run(evs[..i]).dev, evs[i].event)
    ensures RenewingRun(evs, hello) && CounterCell.Below(Run(evs).dev)
  {
    if evs != [] {
      var before, e := evs[..|evs| - 1], evs[|evs| - 1];
      assert forall i | 0 <= i < |before| :: before[..i] == evs[..i];
      InTurnRunsRenew(before, hello);
      if e.OnDevice? && CanArrive(Run(before), e.event) {
        CounterCell.StepKeepsBelow(Run(before).dev, e.event);
      }
    }
  }

  // ----- acceptance on the server, whatever arrives

  /** The counters for which accept_hello_counter or accept_status_counter answered true, in order. */
  function Accepted(evs: seq<Listener.ServerEvent>, hello: bool): seq<nat> {
    if evs == [] then []
    else
      var before := evs[..|evs| - 1];
      Accepted(before, hello) + AcceptedBy(Listener.ServerRun(before), evs[|evs| - 1], hello)
  }

  function AcceptedBy(e: Listener.Entry, ev: Listener.ServerEvent, hello: bool): seq<nat> {
    match ev
    case Proceed(_) =>
      if hello && e.callback.HelloChecked? && Listener.ServerStep(e, ev).callback.HelloAccepted?
      then [e.callback.counter] else []
    case Arrive(f) =>
      if !hello && f.Status? && e.callback == Listener.Ready && Listener.ServerStep(e, ev).statusMark != e.statusMark
      then [f.counter] else []
    case Tick(_) => []
    case Reboot => []
  }

  ghost predicate Below(a: seq<nat>, mark: nat) { forall c :: c in a ==> c <= mark }

  /** No counter of either kind is accepted twice: accepted ones rise strictly. */
  lemma {:induction false} AcceptedOnce(evs: seq<Listener.ServerEvent>, hello: bool)
    ensures CounterCell.Rising(Accepted(evs, hello))
    ensures var e := Listener.ServerRun(evs); Below(Accepted(evs, hello), if hello then e.helloMark else e.statusMark)
  {
    if evs != [] {
      var before, ev := evs[..|evs| - 1], evs[|evs| - 1];
      var e := Listener.ServerRun(before);
      AcceptedOnce(before, hello);
      AcceptedRaises(e, ev, hello);
      Appended(Accepted(before, hello), AcceptedBy(e, ev, hello), if hello then e.helloMark else e.statusMark,
               var f := Listener.ServerStep(e, ev); if hello then f.helloMark else f.statusMark);
    }
  }

  lemma Appended(a: seq<nat>, b: seq<nat>, mark: nat, mark': nat)
    requires CounterCell.Rising(a) && Below(a, mark) && mark <= mark' && |b| <= 1
    requires b != [] ==> mark < b[0] == mark'
    ensures CounterCell.Rising(a + b) && Below(a + b, mark')
  {
    assert forall c :: c in a + b ==> c in a || c in b;
    assert forall i | 0 <= i < |a| :: (a + b)[i] in a;
  }

  lemma AcceptedRaises(e: Listener.Entry, ev: Listener.ServerEvent, hello: bool)
    ensures var f := Listener.ServerStep(e, ev); var b := AcceptedBy(e, ev, hello);
            && e.helloMark <= f.helloMark && e.statusMark <= f.statusMark
            && (b == [] || (|b| == 1 && (if hello then e.helloMark else e.statusMark) < b[0]
                            && b[0] == if hello then f.helloMark else f.statusMark))
  {
  }
}
