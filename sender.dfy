/** The sender's main-loop decision layer: the per-frame debounce counter,
    arming by vision or by the manual key, the cooldown since the last
    successful send, the clipboard check, and what a send's success or failure
    does to the state.

    One frame's inputs are whether the tracker saw a fist, whether the manual
    trigger key was pressed, the current time in seconds, the clipboard text,
    and whether the server would accept a send of that text (HTTP 200). */
module Sender {
  import opened Clipboard

  const DebounceFrames := 10
  const CooldownSeconds: real := 3.0

  datatype Frame = Frame(isFist: bool, manualTrigger: bool, now: real, clipboard: string, accepted: bool)

  /** The loop-level state: consecutive fist frames, and the time of the last
      successful send. */
  datatype State = State(fistFrames: nat, lastTriggerTime: real)

  const Initial := State(0, 0.0)

  /** What one frame does about sending:
      Idle          — no trigger is armed;
      CoolingDown   — armed, but the cooldown since the last send has not passed;
      NothingToSend — armed and cooled down, but the clipboard text is blank;
      Sent          — the text was posted and the server accepted it;
      SendFailed    — the text was posted and the send failed. */
  datatype Outcome = Idle | CoolingDown | NothingToSend | Sent | SendFailed

  /** A post to the server was made. */
  predicate Attempted(o: Outcome) { o == Sent || o == SendFailed }

  datatype Step = Step(state: State, outcome: Outcome)

  /** One frame of the main loop. */
  function Next(s: State, f: Frame): (r: Step)
    // the counter: one more on a fist frame, back to zero otherwise; a success clears it too
    ensures r.outcome != Sent ==> r.state.fistFrames == (if f.isFist then s.fistFrames + 1 else 0)
    ensures r.outcome != Sent ==> r.state.lastTriggerTime == s.lastTriggerTime
    ensures r.outcome == Sent ==> r.state == State(0, f.now)
    // arming: this frame completes more than DebounceFrames fist frames in a row, or the key is pressed
    ensures r.outcome != Idle <==> (f.isFist && s.fistFrames >= DebounceFrames) || f.manualTrigger
    // gating: armed, strictly past the cooldown, and some non-whitespace character to send
    ensures Attempted(r.outcome) <==>
      && r.outcome != Idle
      && f.now - s.lastTriggerTime > CooldownSeconds
      && exists i :: 0 <= i < |f.clipboard| && !IsSpace(f.clipboard[i])
    ensures r.outcome == CoolingDown <==> r.outcome != Idle && f.now - s.lastTriggerTime <= CooldownSeconds
    ensures r.outcome == Sent <==> Attempted(r.outcome) && f.accepted
  {
    SendableIff(f.clipboard);
    var frames := if f.isFist then s.fistFrames + 1 else 0;
    var counted := State(frames, s.lastTriggerTime);
    if !(frames > DebounceFrames || f.manualTrigger) then Step(counted, Idle)
    else if !(f.now - s.lastTriggerTime > CooldownSeconds) then Step(counted, CoolingDown)
    else if !IsSendable(f.clipboard) then Step(counted, NothingToSend)
    else if f.accepted then Step(State(0, f.now), Sent)
    else Step(counted, SendFailed)
  }

  datatype Trace = Trace(state: State, outcomes: seq<Outcome>)

  /** A run of frames, from a given state: the final state and each frame's outcome. */
  function Run(s: State, fs: seq<Frame>): (t: Trace)
    ensures |t.outcomes| == |fs|
  {
    if fs == [] then Trace(s, [])
    else
      var p := Run(s, fs[..|fs| - 1]);
      var q := Next(p.state, fs[|fs| - 1]);
      Trace(q.state, p.outcomes + [q.outcome])
  }

  /** Frames the tracker sees as a fist, with the manual key not pressed. */
  predicate AllFistsNoKey(fs: seq<Frame>) {
    forall i :: 0 <= i < |fs| ==> fs[i].isFist && !fs[i].manualTrigger
  }

  /** While the counter stays at or below the threshold, fist frames only count
      up and never arm a trigger. */
  lemma {:induction false} FistStreakCounts(s: State, fs: seq<Frame>)
    requires AllFistsNoKey(fs)
    requires s.fistFrames + |fs| <= DebounceFrames
    ensures Run(s, fs).state == State(s.fistFrames + |fs|, s.lastTriggerTime)
    ensures forall i :: 0 <= i < |fs| ==> Run(s, fs).outcomes[i] == Idle
  {
    if fs != [] {
      var init := fs[..|fs| - 1];
      assert AllFistsNoKey(init) by {
        forall i | 0 <= i < |init| ensures init[i].isFist && !init[i].manualTrigger {
          assert init[i] == fs[i];
        }
      }
      FistStreakCounts(s, init);
    }
  }

  /** From a cleared counter, ten fist frames in a row do not arm a trigger and
      an eleventh does. */
  lemma TenFistsDoNotArmEleventhDoes(s: State, fs: seq<Frame>, f: Frame)
    requires s.fistFrames == 0
    requires |fs| == DebounceFrames && AllFistsNoKey(fs)
    requires f.isFist
    ensures forall i :: 0 <= i < |fs| ==> Run(s, fs).outcomes[i] == Idle
    ensures Next(Run(s, fs).state, f).outcome != Idle
  {
    FistStreakCounts(s, fs);
  }

  /** Replaying one more frame extends the replay of the others by that frame's step. */
  lemma RunExtends(s: State, fs: seq<Frame>, f: Frame)
    ensures Run(s, fs + [f]).state == Next(Run(s, fs).state, f).state
    ensures Run(s, fs + [f]).outcomes == Run(s, fs).outcomes + [Next(Run(s, fs).state, f).outcome]
  {
    assert (fs + [f])[..|fs|] == fs;
  }

  /** No frame of the run sent. */
  predicate NoneSent(t: Trace) {
    forall i :: 0 <= i < |t.outcomes| ==> t.outcomes[i] != Sent
  }

  /** No frame of the run posted. */
  predicate NoneAttempted(t: Trace) {
    forall i :: 0 <= i < |t.outcomes| ==> !Attempted(t.outcomes[i])
  }

  /** Over a run, the last trigger time stays that of the start unless some
      frame sent; otherwise it is the time of the last frame that sent. */
  lemma {:induction false} RunStamp(s: State, fs: seq<Frame>)
    ensures NoneSent(Run(s, fs)) ==> Run(s, fs).state.lastTriggerTime == s.lastTriggerTime
    ensures forall i ::
      (0 <= i < |fs| && Run(s, fs).outcomes[i] == Sent &&
       forall j :: i < j < |fs| ==> Run(s, fs).outcomes[j] != Sent) ==>
      Run(s, fs).state.lastTriggerTime == fs[i].now
  {
    if fs != [] {
      var last := |fs| - 1;
      var init := fs[..last];
      var p := Run(s, init);
      var t := Run(s, fs);
      RunStamp(s, init);
      assert forall i :: 0 <= i < last ==> t.outcomes[i] == p.outcomes[i];
      if t.outcomes[last] != Sent {
        assert t.state.lastTriggerTime == p.state.lastTriggerTime;
        if NoneSent(t) {
          assert NoneSent(p);
        }
        forall i | 0 <= i < |fs| && t.outcomes[i] == Sent && (forall j :: i < j < |fs| ==> t.outcomes[j] != Sent)
          ensures t.state.lastTriggerTime == fs[i].now
        {
          assert i < last;
          assert fs[i] == init[i];
          assert forall j :: i < j < last ==> p.outcomes[j] == t.outcomes[j];
        }
      }
    }
  }

  /** From a state stamped at some time, frames none of which comes more than
      the cooldown after that time post nothing and keep the stamp; when they
      are all fist frames, the counter only counts up. */
  lemma {:induction false} QuietWithinCooldown(s: State, fs: seq<Frame>)
    requires forall i :: 0 <= i < |fs| ==> fs[i].now - s.lastTriggerTime <= CooldownSeconds
    ensures Run(s, fs).state.lastTriggerTime == s.lastTriggerTime
    ensures NoneAttempted(Run(s, fs))
    ensures (forall i :: 0 <= i < |fs| ==> fs[i].isFist) ==> Run(s, fs).state.fistFrames == s.fistFrames + |fs|
  {
    if fs != [] {
      var last := |fs| - 1;
      var init := fs[..last];
      assert forall i :: 0 <= i < last ==> init[i] == fs[i];
      QuietWithinCooldown(s, init);
      var p := Run(s, init);
      var t := Run(s, fs);
      assert forall i :: 0 <= i < last ==> t.outcomes[i] == p.outcomes[i];
      assert fs[last].now - p.state.lastTriggerTime <= CooldownSeconds;
    }
  }

  /** After a successful send, no frame within the cooldown posts again,
      however it is armed: two armed frames in one cooldown window give one send. */
  lemma {:induction false} OneSendPerCooldown(s: State, f0: Frame, fs: seq<Frame>)
    requires Next(s, f0).outcome == Sent
    requires forall i :: 0 <= i < |fs| ==> fs[i].now - f0.now <= CooldownSeconds
    ensures NoneAttempted(Run(Next(s, f0).state, fs))
  {
    QuietWithinCooldown(Next(s, f0).state, fs);
  }

  /** After any run in which nothing was sent, an armed frame strictly past the
      cooldown since the starting stamp, with sendable text that the server
      accepts, sends. */
  lemma {:induction false} SendAgainAfterCooldown(s: State, fs: seq<Frame>, f: Frame)
    requires NoneSent(Run(s, fs))
    requires Next(Run(s, fs).state, f).outcome != Idle
    requires f.now - s.lastTriggerTime > CooldownSeconds && f.accepted
    requires exists i :: 0 <= i < |f.clipboard| && !IsSpace(f.clipboard[i])
    ensures Next(Run(s, fs).state, f).outcome == Sent
  {
    RunStamp(s, fs);
  }

  /** A fist held after a successful send: at least ten further fist frames
      within the cooldown post nothing, and the next fist frame past the
      cooldown, with sendable text that the server accepts, sends again. */
  lemma {:induction false} HeldFistSendsAgain(s: State, f0: Frame, fs: seq<Frame>, f: Frame)
    requires Next(s, f0).outcome == Sent
    requires |fs| >= DebounceFrames
    requires forall i :: 0 <= i < |fs| ==> fs[i].isFist && fs[i].now - f0.now <= CooldownSeconds
    requires f.isFist && f.accepted && f.now - f0.now > CooldownSeconds
    requires exists i :: 0 <= i < |f.clipboard| && !IsSpace(f.clipboard[i])
    ensures NoneAttempted(Run(Next(s, f0).state, fs))
    ensures Next(Run(Next(s, f0).state, fs).state, f).outcome == Sent
  {
    QuietWithinCooldown(Next(s, f0).state, fs);
  }

  /** A failed send by vision leaves the counter above the threshold and the
      cooldown timer where it was, so the next fist frame re-arms and, not
      earlier than the failed one, posts again whenever its text is sendable. */
  lemma FailedSendRetries(s: State, f1: Frame, f2: Frame)
    requires f1.isFist && !f1.manualTrigger
    requires Next(s, f1).outcome == SendFailed
    requires f2.isFist && f2.now >= f1.now
    ensures Next(s, f1).state.lastTriggerTime == s.lastTriggerTime
    ensures Next(s, f1).state.fistFrames > DebounceFrames
    ensures Next(Next(s, f1).state, f2).outcome != Idle
    ensures Attempted(Next(Next(s, f1).state, f2).outcome) <==>
      exists i :: 0 <= i < |f2.clipboard| && !IsSpace(f2.clipboard[i])
  {
  }

  /** The main loop's state, with one call per frame. */
  class GestureSender {
    var fistFrames: nat
    var lastTriggerTime: real

    constructor ()
      ensures State(fistFrames, lastTriggerTime) == Initial
    {
      fistFrames := 0;
      lastTriggerTime := 0.0;
    }

    /** Updates the counter for this frame's classification, decides whether a
        trigger is armed and may fire, and sends the clipboard text if so. */
    method OnFrame(isFist: bool, manualTrigger: bool, now: real, clipboard: string, accepted: bool)
      returns (outcome: Outcome)
      modifies this
      ensures Step(State(fistFrames, lastTriggerTime), outcome) ==
        Next(old(State(fistFrames, lastTriggerTime)), Frame(isFist, manualTrigger, now, clipboard, accepted))
    {
      if isFist {
        fistFrames := fistFrames + 1;
      } else {
        fistFrames := 0;
      }
      var triggerAction := fistFrames > DebounceFrames;
      if manualTrigger {
        triggerAction := true;
      }
      outcome := Idle;
      if triggerAction {
        outcome := CoolingDown;
        if now - lastTriggerTime > CooldownSeconds {
          outcome := NothingToSend;
          if clipboard != [] && Strip(clipboard) != [] {
            if accepted {
              lastTriggerTime := now;
              fistFrames := 0;
              outcome := Sent;
            } else {
              outcome := SendFailed;
            }
          }
        }
      }
    }
  }
}
