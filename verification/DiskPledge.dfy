// Any number of uploads sharing one pledge counter and one disk: pledge, check,
// write, release and abort interleaved in any order keep free space at the floor.
module DiskPledge {
  import UploadStream

  datatype Phase =
    | Waiting            // format not chosen yet, nothing pledged
    | Streaming          // pledge made, between two writes
    | Checked(next: nat) // headroom granted for the next bytes, not yet written
    | Written(last: nat) // bytes on disk, not yet released from the pledge
    | Closing            // file closed or unlinked, rest of the pledge outstanding
    | Done

  // `pledge` is the upload's own outstanding pledge, `onDisk` the bytes in its file.
  datatype Upload = Upload(phase: Phase, pledge: nat, onDisk: nat)

  datatype Params = Params(cap: nat, floor: int)

  datatype State = State(free: int, reserved: int, uploads: seq<Upload>)

  datatype Step =
    | Arrive
    | Pledge(u: nat)
    | Check(u: nat, size: nat)
    | Write(u: nat)
    | Release(u: nat)
    | Finish(u: nat)       // success: the file is kept
    | Abort(u: nat)        // rejection or disconnect: the temp file is unlinked
    | ReleaseRest(u: nat)
    | FreeUp(amount: nat)  // a stored blob elsewhere is unlinked

  predicate Enabled(p: Params, s: State, step: Step) {
    match step
    case Arrive => true
    case FreeUp(_) => true
    case Pledge(u) => u < |s.uploads| && s.uploads[u].phase == Waiting
    case Check(u, size) =>
      && u < |s.uploads| && s.uploads[u].phase == Streaming
      && s.uploads[u].onDisk + size <= p.cap
      && UploadStream.HasHeadroom(s.free, size, s.reserved - s.uploads[u].pledge, p.floor)
    case Write(u) => u < |s.uploads| && s.uploads[u].phase.Checked?
    case Release(u) => u < |s.uploads| && s.uploads[u].phase.Written?
    case Finish(u) => u < |s.uploads| && s.uploads[u].phase == Streaming
    case Abort(u) =>
      u < |s.uploads| && (s.uploads[u].phase == Streaming || s.uploads[u].phase.Checked? || s.uploads[u].phase.Written?)
    case ReleaseRest(u) => u < |s.uploads| && s.uploads[u].phase == Closing
  }

  // The counter is clamped at zero, as the release is in the program.
  function Released(reserved: int, amount: nat): int {
    if reserved - amount < 0 then 0 else reserved - amount
  }

  function Next(p: Params, s: State, step: Step): State
    requires Enabled(p, s, step)
  {
    match step
    case Arrive => s.(uploads := s.uploads + [Upload(Waiting, 0, 0)])
    case FreeUp(amount) => s.(free := s.free + amount)
    case Pledge(u) =>
      s.(reserved := s.reserved + p.cap, uploads := s.uploads[u := Upload(Streaming, p.cap, 0)])
    case Check(u, size) => s.(uploads := s.uploads[u := s.uploads[u].(phase := Checked(size))])
    case Write(u) =>
      var up := s.uploads[u];
      s.(free := s.free - up.phase.next,
         uploads := s.uploads[u := up.(phase := Written(up.phase.next), onDisk := up.onDisk + up.phase.next)])
    case Release(u) =>
      var up := s.uploads[u];
      var left: int := up.pledge - up.phase.last;
      s.(reserved := Released(s.reserved, up.phase.last),
         uploads := s.uploads[u := up.(phase := Streaming, pledge := if left < 0 then 0 else left)])
    case Finish(u) => s.(uploads := s.uploads[u := s.uploads[u].(phase := Closing)])
    case Abort(u) =>
      s.(free := s.free + s.uploads[u].onDisk,
         uploads := s.uploads[u := s.uploads[u].(phase := Closing, onDisk := 0)])
    case ReleaseRest(u) =>
      s.(reserved := Released(s.reserved, s.uploads[u].pledge),
         uploads := s.uploads[u := s.uploads[u].(phase := Done, pledge := 0)])
  }

  // ---------- Sums over the uploads ----------

  function Granted(u: Upload): nat {
    if u.phase.Checked? then u.phase.next else 0
  }

  function Pledges(us: seq<Upload>): nat {
    if us == [] then 0 else us[0].pledge + Pledges(us[1..])
  }

  // Bytes whose headroom was granted but which are not on disk yet.
  function InFlight(us: seq<Upload>): nat {
    if us == [] then 0 else Granted(us[0]) + InFlight(us[1..])
  }

  lemma {:induction false} SumsUpdate(us: seq<Upload>, i: nat, u: Upload)
    requires i < |us|
    ensures Pledges(us[i := u]) == Pledges(us) - us[i].pledge + u.pledge
    ensures InFlight(us[i := u]) == InFlight(us) - Granted(us[i]) + Granted(u)
  {
    if i == 0 {
      assert us[i := u][1..] == us[1..];
    } else {
      assert us[i := u][1..] == us[1..][i - 1 := u];
      SumsUpdate(us[1..], i - 1, u);
    }
  }

  lemma {:induction false} SumsSnoc(us: seq<Upload>, u: Upload)
    ensures Pledges(us + [u]) == Pledges(us) + u.pledge
    ensures InFlight(us + [u]) == InFlight(us) + Granted(u)
  {
    if us == [] {
      assert [] + [u] == [u];
    } else {
      assert (us + [u])[1..] == us[1..] + [u];
      SumsSnoc(us[1..], u);
    }
  }

  // What the other uploads were granted is covered by what they pledged.
  lemma {:induction false} OthersCovered(p: Params, us: seq<Upload>, i: nat)
    requires i < |us| && forall k :: 0 <= k < |us| ==> UploadInv(p, us[k])
    ensures InFlight(us) - Granted(us[i]) <= Pledges(us) - us[i].pledge
    ensures us[i].pledge <= Pledges(us) && Granted(us[i]) <= InFlight(us)
  {
    if i == 0 {
      AllCovered(p, us[1..]);
    } else {
      OthersCovered(p, us[1..], i - 1);
      assert UploadInv(p, us[0]);
    }
  }

  lemma {:induction false} AllCovered(p: Params, us: seq<Upload>)
    requires forall k :: 0 <= k < |us| ==> UploadInv(p, us[k])
    ensures InFlight(us) <= Pledges(us)
  {
    if us != [] {
      AllCovered(p, us[1..]);
      assert UploadInv(p, us[0]);
    }
  }

  // ---------- The invariant ----------

  // Each pledge is the cap minus what that upload has written (bytes written but
  // not yet released still count as pledged).
  predicate UploadInv(p: Params, u: Upload) {
    match u.phase
    case Waiting => u.pledge == 0 && u.onDisk == 0
    case Streaming => u.pledge + u.onDisk == p.cap
    case Checked(size) => u.pledge + u.onDisk == p.cap && size <= u.pledge
    case Written(size) => u.pledge + u.onDisk == p.cap + size && size <= u.onDisk <= p.cap
    case Closing => u.pledge <= p.cap
    case Done => u.pledge == 0
  }

  predicate Inv(p: Params, s: State) {
    && (forall k :: 0 <= k < |s.uploads| ==> UploadInv(p, s.uploads[k]))
    && s.reserved == Pledges(s.uploads)
    && (0 < InFlight(s.uploads) ==> p.floor <= s.free - InFlight(s.uploads))
  }

  // Replacing one upload keeps the invariant when the counter moves with its
  // pledge and its granted bytes stay covered by free space.
  lemma InvUpdate(p: Params, s: State, t: State, i: nat)
    requires Inv(p, s) && i < |s.uploads| == |t.uploads|
    requires t.uploads == s.uploads[i := t.uploads[i]] && UploadInv(p, t.uploads[i])
    requires t.reserved == s.reserved - s.uploads[i].pledge + t.uploads[i].pledge
    requires var others := InFlight(s.uploads) - Granted(s.uploads[i]);
             0 < others + Granted(t.uploads[i]) ==> p.floor <= t.free - others - Granted(t.uploads[i])
    ensures Inv(p, t)
  {
    SumsUpdate(s.uploads, i, t.uploads[i]);
  }

  lemma InvNext(p: Params, s: State, step: Step)
    requires Inv(p, s) && Enabled(p, s, step)
    ensures Inv(p, Next(p, s, step))
    // Only a write lowers free space, and never below the floor.
    ensures Next(p, s, step).free < s.free ==> step.Write? && p.floor <= Next(p, s, step).free
    // The clamp is never taken: a release lowers the counter by its full amount.
    ensures step.Release? ==> Next(p, s, step).reserved == s.reserved - s.uploads[step.u].phase.last
    ensures step.ReleaseRest? ==> Next(p, s, step).reserved == s.reserved - s.uploads[step.u].pledge
  {
    if step.Arrive? {
      SumsSnoc(s.uploads, Upload(Waiting, 0, 0));
    } else if !step.FreeUp? {
      OthersCovered(p, s.uploads, step.u);
      UploadStep(p, s, step);
      InvUpdate(p, s, Next(p, s, step), step.u);
    }
  }

  lemma UploadStep(p: Params, s: State, step: Step)
    requires Inv(p, s) && Enabled(p, s, step) && !step.Arrive? && !step.FreeUp?
    requires InFlight(s.uploads) - Granted(s.uploads[step.u]) <= Pledges(s.uploads) - s.uploads[step.u].pledge
    requires s.uploads[step.u].pledge <= Pledges(s.uploads) && Granted(s.uploads[step.u]) <= InFlight(s.uploads)
    ensures var i, t := step.u, Next(p, s, step);
            var others := InFlight(s.uploads) - Granted(s.uploads[i]);
            && |s.uploads| == |t.uploads|
            && t.uploads == s.uploads[i := t.uploads[i]] && UploadInv(p, t.uploads[i])
            && t.reserved == s.reserved - s.uploads[i].pledge + t.uploads[i].pledge
            && (0 < others + Granted(t.uploads[i]) ==> p.floor <= t.free - others - Granted(t.uploads[i]))
            && (t.free < s.free ==> step.Write? && p.floor <= t.free)
            && (step.Release? ==> t.reserved == s.reserved - s.uploads[i].phase.last)
            && (step.ReleaseRest? ==> t.reserved == s.reserved - s.uploads[i].pledge)
  {
    assert UploadInv(p, s.uploads[step.u]);
  }

  // ---------- Whole runs ----------

  ghost predicate IsRun(p: Params, states: seq<State>, steps: seq<Step>) {
    && |states| == |steps| + 1
    && states[0].uploads == [] && states[0].reserved == 0
    && forall i :: 0 <= i < |steps| ==> Enabled(p, states[i], steps[i]) && states[i + 1] == Next(p, states[i], steps[i])
  }

  lemma {:induction false} RunInv(p: Params, states: seq<State>, steps: seq<Step>, i: nat)
    requires IsRun(p, states, steps) && i < |states|
    ensures Inv(p, states[i])
    ensures p.floor <= states[0].free ==> p.floor <= states[i].free - InFlight(states[i].uploads)
  {
    if i > 0 {
      RunInv(p, states, steps, i - 1);
      InvNext(p, states[i - 1], steps[i - 1]);
      assert Inv(p, states[i]);
      if InFlight(states[i].uploads) == 0 && p.floor <= states[0].free {
        assert states[i].free < states[i - 1].free ==> p.floor <= states[i].free;
      }
    }
  }

  // A disk at or above the floor never drops below it, whatever the interleaving;
  // a disk already below it is never written to.
  lemma DiskFloorSound(p: Params, states: seq<State>, steps: seq<Step>)
    requires IsRun(p, states, steps)
    ensures p.floor <= states[0].free ==> forall i :: 0 <= i < |states| ==> p.floor <= states[i].free
    ensures forall i :: 0 <= i < |steps| && steps[i].Write? && 0 < states[i].uploads[steps[i].u].phase.next
              ==> p.floor <= states[i + 1].free
    ensures forall i :: 0 <= i < |states| ==> states[i].reserved == Pledges(states[i].uploads)
  {
    forall i | 0 <= i < |states|
      ensures p.floor <= states[0].free ==> p.floor <= states[i].free
      ensures states[i].reserved == Pledges(states[i].uploads)
    {
      RunInv(p, states, steps, i);
    }
    forall i | 0 <= i < |steps| && steps[i].Write? && 0 < states[i].uploads[steps[i].u].phase.next
      ensures p.floor <= states[i + 1].free
    {
      RunInv(p, states, steps, i);
      InvNext(p, states[i], steps[i]);
    }
  }

  // ---------- Conservation of disk space ----------

  function OnDisk(us: seq<Upload>): nat {
    if us == [] then 0 else us[0].onDisk + OnDisk(us[1..])
  }

  function FreedUp(steps: seq<Step>): nat {
    if steps == [] then 0
    else FreedUp(steps[..|steps| - 1]) + (if steps[|steps| - 1].FreeUp? then steps[|steps| - 1].amount else 0)
  }

  lemma {:induction false} OnDiskUpdate(us: seq<Upload>, i: nat, u: Upload)
    requires i < |us|
    ensures OnDisk(us[i := u]) == OnDisk(us) - us[i].onDisk + u.onDisk
  {
    if i == 0 {
      assert us[i := u][1..] == us[1..];
    } else {
      assert us[i := u][1..] == us[1..][i - 1 := u];
      OnDiskUpdate(us[1..], i - 1, u);
    }
  }

  lemma {:induction false} OnDiskSnoc(us: seq<Upload>, u: Upload)
    ensures OnDisk(us + [u]) == OnDisk(us) + u.onDisk
  {
    if us == [] {
      assert [] + [u] == [u];
    } else {
      assert (us + [u])[1..] == us[1..] + [u];
      OnDiskSnoc(us[1..], u);
    }
  }

  // Free space is what there was, plus what was freed elsewhere, minus what the uploads
  // hold: an aborted upload gives all of it back, a finished one keeps its file.
  lemma {:induction false} SpaceConserved(p: Params, states: seq<State>, steps: seq<Step>, i: nat)
    requires IsRun(p, states, steps) && i < |states|
    ensures states[i].free == states[0].free + FreedUp(steps[..i]) - OnDisk(states[i].uploads)
  {
    if i > 0 {
      SpaceConserved(p, states, steps, i - 1);
      assert steps[..i][..i - 1] == steps[..i - 1];
      RunInv(p, states, steps, i - 1);
      if steps[i - 1].Pledge? { assert UploadInv(p, states[i - 1].uploads[steps[i - 1].u]); }
      SpaceStep(p, states[i - 1], steps[i - 1]);
    }
  }

  lemma SpaceStep(p: Params, s: State, step: Step)
    requires Enabled(p, s, step) && (step.Pledge? ==> s.uploads[step.u].onDisk == 0)
    ensures var t := Next(p, s, step);
            t.free + OnDisk(t.uploads) == s.free + OnDisk(s.uploads) + if step.FreeUp? then step.amount else 0
  {
    if step.Arrive? {
      OnDiskSnoc(s.uploads, Upload(Waiting, 0, 0));
    } else if !step.FreeUp? {
      OnDiskUpdate(s.uploads, step.u, Next(p, s, step).uploads[step.u]);
    }
  }

  // What one step does to its upload's file: a write adds the bytes granted, an abort
  // removes the file, nothing else touches it.
  lemma FileStep(p: Params, s: State, step: Step, u: nat)
    requires Inv(p, s) && Enabled(p, s, step) && u < |s.uploads|
    ensures var a, b := s.uploads[u], Next(p, s, step).uploads[u];
            b.onDisk == if step == Abort(u) then 0
                        else if step == Write(u) then a.onDisk + a.phase.next else a.onDisk
  {
    assert UploadInv(p, s.uploads[u]);
  }

  // The check is not stricter than needed: a write within an upload's own pledge passes
  // whenever floor and pledges together fit into the free space.
  lemma CheckPasses(p: Params, states: seq<State>, steps: seq<Step>, i: nat, u: nat, size: nat)
    requires IsRun(p, states, steps) && i < |states| && u < |states[i].uploads|
    requires states[i].uploads[u].phase == Streaming && size <= states[i].uploads[u].pledge
    requires p.floor + Pledges(states[i].uploads) <= states[i].free
    ensures Enabled(p, states[i], Check(u, size))
  {
    RunInv(p, states, steps, i);
    assert UploadInv(p, states[i].uploads[u]);
  }

  // And it passes exactly when the floor, this write and the others' pledges fit.
  lemma CheckIff(p: Params, states: seq<State>, steps: seq<Step>, i: nat, u: nat, size: nat)
    requires IsRun(p, states, steps) && i < |states| && u < |states[i].uploads| && states[i].uploads[u].phase == Streaming
    ensures Enabled(p, states[i], Check(u, size)) <==>
            (states[i].uploads[u].onDisk + size <= p.cap
             && p.floor + size + (Pledges(states[i].uploads) - states[i].uploads[u].pledge) <= states[i].free)
  {
    RunInv(p, states, steps, i);
  }

  predicate Idle(u: Upload) {
    u.phase == Waiting || u.phase == Done
  }

  // Once every upload has ended, or was refused before it pledged, nothing stays pledged.
  lemma NoPledgeLeaks(p: Params, states: seq<State>, steps: seq<Step>, i: nat)
    requires IsRun(p, states, steps) && i < |states|
    requires forall k :: 0 <= k < |states[i].uploads| ==> Idle(states[i].uploads[k])
    ensures states[i].reserved == 0
  {
    RunInv(p, states, steps, i);
    AllDoneNoPledge(p, states[i].uploads);
  }

  lemma {:induction false} AllDoneNoPledge(p: Params, us: seq<Upload>)
    requires forall k :: 0 <= k < |us| ==> UploadInv(p, us[k]) && Idle(us[k])
    ensures Pledges(us) == 0
  {
    if us != [] {
      assert UploadInv(p, us[0]);
      AllDoneNoPledge(p, us[1..]);
    }
  }

  // ---------- One upload with none beside it ----------

  // Arrived, pledged, checked, written, released and finished, an upload that fits keeps
  // its file and leaves no pledge behind.
  lemma SoloUpload(p: Params, s: State, size: nat) returns (steps: seq<Step>, states: seq<State>)
    requires Inv(p, s) && size <= p.cap && p.floor + Pledges(s.uploads) + p.cap <= s.free
    ensures |states| == |steps| + 1 && states[0] == s
    ensures forall i :: 0 <= i < |steps| ==> Enabled(p, states[i], steps[i]) && states[i + 1] == Next(p, states[i], steps[i])
    ensures states[|steps|] == State(s.free - size, s.reserved, s.uploads + [Upload(Done, 0, size)])
  {
    var u := |s.uploads|;
    SumsSnoc(s.uploads, Upload(Waiting, 0, 0));
    steps := [Arrive, Pledge(u), Check(u, size), Write(u), Release(u), Finish(u), ReleaseRest(u)];
    var at := (up: Upload) => s.uploads + [up];
    var s1 := State(s.free, s.reserved, at(Upload(Waiting, 0, 0)));
    var s2 := State(s.free, s.reserved + p.cap, at(Upload(Streaming, p.cap, 0)));
    var s3 := s2.(uploads := at(Upload(Checked(size), p.cap, 0)));
    var s4 := State(s.free - size, s2.reserved, at(Upload(Written(size), p.cap, size)));
    var s5 := State(s4.free, s2.reserved - size, at(Upload(Streaming, p.cap - size, size)));
    var s6 := s5.(uploads := at(Upload(Closing, p.cap - size, size)));
    var s7 := State(s4.free, s.reserved, at(Upload(Done, 0, size)));
    assert s1.uploads[u := Upload(Streaming, p.cap, 0)] == s2.uploads;
    assert s2.uploads[u := Upload(Checked(size), p.cap, 0)] == s3.uploads;
    assert s3.uploads[u := Upload(Written(size), p.cap, size)] == s4.uploads;
    assert s4.uploads[u := Upload(Streaming, p.cap - size, size)] == s5.uploads;
    assert s5.uploads[u := Upload(Closing, p.cap - size, size)] == s6.uploads;
    assert s6.uploads[u := Upload(Done, 0, size)] == s7.uploads;
    states := [s, s1, s2, s3, s4, s5, s6, s7];
  }
}
