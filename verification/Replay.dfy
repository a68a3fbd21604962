/** Replays of signed requests over time, on a clock that never goes back. */
module Replay {
  import opened Repository

  datatype Request = Request(keyId: string, nonce: string, timestamp: int)

  datatype Progress = Checked | Accepted | Refused

  /** A worker that found the signed time within the window at `checkedAt`. */
  datatype Worker = Worker(request: Request, checkedAt: int, progress: Progress)

  datatype State = State(now: int, nonces: map<Key, int>, workers: seq<Worker>)

  /**
   A worker reads the clock once, checks the signed time against it, and claims the nonce at most
   `delay` seconds later; an expired nonce item may be deleted, but only once the clock is more
   than `grace` seconds past its expiry.
   */
  datatype Timing = Timing(skew: nat, delay: nat, grace: nat)

  datatype Step =
    | Wait(until: int)
    | Check(request: Request)
    | Claim(w: nat)
    | Expire(key: Key)

  function KeyOf(r: Request): Key {
    NonceKey(r.keyId, r.nonce)
  }

  predicate InWindow(timing: Timing, now: int, timestamp: int) {
    timestamp - timing.skew <= now <= timestamp + timing.skew
  }

  ghost predicate Next(timing: Timing, s: State, step: Step, t: State) {
    match step
    case Wait(until) => s.now <= until && t == s.(now := until)
    case Check(request) =>
      && InWindow(timing, s.now, request.timestamp)
      && t == s.(workers := s.workers + [Worker(request, s.now, Checked)])
    case Claim(w) =>
      && w < |s.workers| && s.workers[w].progress == Checked
      && s.now <= s.workers[w].checkedAt + timing.delay
      && var me := s.workers[w];
         var key := KeyOf(me.request);
         t == if key in s.nonces then s.(workers := s.workers[w := me.(progress := Refused)])
              else s.(nonces := s.nonces[key := me.checkedAt + 2 * timing.skew],
                workers := s.workers[w := me.(progress := Accepted)])
    case Expire(key) =>
      && key in s.nonces && s.now > s.nonces[key] + timing.grace
      && t == s.(nonces := s.nonces - {key})
  }

  ghost predicate IsRun(timing: Timing, run: seq<State>, steps: seq<Step>) {
    && |run| == |steps| + 1
    && run[0].nonces == map[] && run[0].workers == []
    && forall i :: 0 <= i < |steps| ==> Next(timing, run[i], steps[i], run[i + 1])
  }

  /** No request was accepted twice. */
  ghost predicate AcceptedOnce(s: State) {
    forall i, j ::
      0 <= i < j < |s.workers| && s.workers[i].progress == s.workers[j].progress == Accepted ==>
        s.workers[i].request != s.workers[j].request
  }

  ghost predicate InTime(timing: Timing, s: State, me: Worker) {
    me.checkedAt <= s.now && InWindow(timing, me.checkedAt, me.request.timestamp)
  }

  /** An accepted nonce is still stored, or its expiry and the grace have passed. */
  ghost predicate Guarded(timing: Timing, s: State, me: Worker) {
    me.progress == Accepted ==>
      || s.now > me.checkedAt + 2 * timing.skew + timing.grace
      || (KeyOf(me.request) in s.nonces && s.nonces[KeyOf(me.request)] >= me.checkedAt + 2 * timing.skew)
  }

  ghost predicate Inv(timing: Timing, s: State) {
    && (forall w :: 0 <= w < |s.workers| ==> InTime(timing, s, s.workers[w]) && Guarded(timing, s, s.workers[w]))
    && AcceptedOnce(s)
  }

  lemma StepInv(timing: Timing, s: State, step: Step, t: State)
    requires timing.delay <= timing.grace
    requires Inv(timing, s) && Next(timing, s, step, t)
    ensures Inv(timing, t)
  {
    hide KeyOf;
    forall w | 0 <= w < |t.workers|
      ensures InTime(timing, t, t.workers[w]) && Guarded(timing, t, t.workers[w])
    {
      if w < |s.workers| {
        assert InTime(timing, s, s.workers[w]) && Guarded(timing, s, s.workers[w]);
      }
    }
    forall i, j | 0 <= i < j < |t.workers| && t.workers[i].progress == Accepted && t.workers[j].progress == Accepted
      ensures t.workers[i].request != t.workers[j].request
    {
      assert InTime(timing, s, s.workers[i]) && Guarded(timing, s, s.workers[i]);
      assert InTime(timing, s, s.workers[j]) && Guarded(timing, s, s.workers[j]);
    }
  }

  lemma {:induction false} RunInv(timing: Timing, run: seq<State>, steps: seq<Step>, n: nat)
    requires timing.delay <= timing.grace
    requires IsRun(timing, run, steps) && n < |run|
    ensures Inv(timing, run[n])
  {
    hide Next;
    if n > 0 {
      RunInv(timing, run, steps, n - 1);
      assert Next(timing, run[n - 1], steps[n - 1], run[n - 1 + 1]);
      StepInv(timing, run[n - 1], steps[n - 1], run[n]);
    }
  }

  /** No run of a given timing accepts a request twice. */
  ghost predicate ReplayProof(timing: Timing) {
    forall run, steps :: IsRun(timing, run, steps) ==> AcceptedOnce(run[|steps|])
  }

  /** A run that accepts one request twice, when claims may come later than deletions wait. */
  lemma LateClaimReplays(timing: Timing) returns (run: seq<State>, steps: seq<Step>)
    requires timing.delay > timing.grace
    ensures IsRun(timing, run, steps) && !AcceptedOnce(run[|steps|])
  {
    var skew: int, grace: int := timing.skew, timing.grace;
    var r := Request("key", "nonce", 0);
    var key := KeyOf(r);
    var w0, w1 := Worker(r, -skew, Checked), Worker(r, skew, Checked);
    var a0, a1 := w0.(progress := Accepted), w1.(progress := Accepted);
    var s0 := State(-skew, map[], []);
    var s1 := s0.(workers := [w0]);
    var s2 := State(-skew, map[key := skew], [a0]);
    var s3 := s2.(now := skew);
    var s4 := s3.(workers := [a0, w1]);
    var s5 := s4.(now := skew + grace + 1);
    var s6 := s5.(nonces := map[]);
    var s7 := State(skew + grace + 1, map[key := skew + 2 * skew], [a0, a1]);
    hide KeyOf;
    run := [s0, s1, s2, s3, s4, s5, s6, s7];
    steps := [Check(r), Claim(0), Wait(skew), Check(r), Wait(skew + grace + 1), Expire(key), Claim(1)];
    assert s1.workers == s0.workers + [w0];
    assert s2.workers == s1.workers[0 := a0];
    assert s4.workers == s3.workers + [w1];
    assert s6.nonces == s5.nonces - {key};
    assert s7.workers == s6.workers[1 := a1];
    assert Next(timing, s0, steps[0], s1);
    assert Next(timing, s1, steps[1], s2);
    assert Next(timing, s2, steps[2], s3);
    assert Next(timing, s3, steps[3], s4);
    assert Next(timing, s4, steps[4], s5);
    assert Next(timing, s5, steps[5], s6);
    assert Next(timing, s6, steps[6], s7);
    assert s7.workers[0].request == s7.workers[1].request;
  }

  /**
   A request is accepted at most once in every run exactly when a claim follows its clock check
   no later than deletion waits after expiry. Taking check and claim as one step, deletion at any
   time after expiry is safe.
   */
  lemma AcceptedAtMostOnce(timing: Timing)
    ensures ReplayProof(timing) <==> timing.delay <= timing.grace
  {
    if timing.delay <= timing.grace {
      forall run, steps | IsRun(timing, run, steps)
        ensures AcceptedOnce(run[|steps|])
      {
        RunInv(timing, run, steps, |steps|);
      }
    } else {
      var run, steps := LateClaimReplays(timing);
      hide Next;
      assert IsRun(timing, run, steps) && !AcceptedOnce(run[|steps|]);
    }
  }
}
