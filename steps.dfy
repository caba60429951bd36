/** Every operation of the driver is an ordered list of driver calls, each followed by an
    optional busy-wait, with a `ret` status that is either checked at once
    (`if(ret) return ret;`) or overwritten by the next call. A `Step` records one such call;
    `Run` is the meaning of a list of steps against an oracle, and is the specification the
    imperative methods of class Driver.Tm1640 are proved against. */
module Steps {
  import opened Gpio

  /** One driver call, then a delay of `wait` microseconds (no delay when `wait` is 0),
      and whether a failure of the call ends the operation with that error. */
  datatype Step = Step(call: Event, wait: nat, checked: bool)

  /** A driver call without a delay whose failure ends the operation. */
  function Checked(call: Event): Step
  {
    Step(call, 0, true)
  }

  /** What an operation emitted and what it returned. */
  datatype Outcome = Outcome(events: seq<Event>, ret: EspErr)

  /** The events of one step: the call, then its delay if it has one. */
  function StepEvents(s: Step): (t: seq<Event>)
    ensures 1 <= |t| <= 2
  {
    if s.wait == 0 then [s.call] else [s.call, Delay(s.wait)]
  }

  /** Everything a list of steps emits when it runs to the end. */
  function Emit(p: seq<Step>): seq<Event>
  {
    if p == [] then [] else StepEvents(p[0]) + Emit(p[1..])
  }

  /** Events `t` followed by whatever `r` emitted, returning what `r` returned. */
  function Prepend(t: seq<Event>, r: Outcome): Outcome
  {
    Outcome(t + r.events, r.ret)
  }

  lemma PrependTwice(a: seq<Event>, b: seq<Event>, r: Outcome)
    ensures Prepend(a, Prepend(b, r)) == Prepend(a + b, r)
  {
  }

  /** Running `p` with its first call recorded at trace position `n`: every step's events
      are emitted in order; a checked call that fails ends the run with its error; a
      failing call that is not checked is overwritten by what follows. */
  function Run(respond: Oracle, n: nat, p: seq<Step>): Outcome
    decreases |p|
  {
    if p == [] then Outcome([], EspOk)
    else
      var here := StepEvents(p[0]);
      if p[0].checked && respond(n) != EspOk then Outcome(here, respond(n))
      else Prepend(here, Run(respond, n + |here|, p[1..]))
  }

  /** Trace position of the call of step `i` of `p` when `p` starts at position `n`. */
  function Pos(n: nat, p: seq<Step>, i: nat): nat
    requires i <= |p|
  {
    n + |Emit(p[..i])|
  }

  /** Index of the first checked step whose call fails, or |p| when there is none. */
  function FirstFailure(respond: Oracle, n: nat, p: seq<Step>): (k: nat)
    ensures k <= |p|
    decreases |p|
  {
    if p == [] then 0
    else if p[0].checked && respond(n) != EspOk then 0
    else 1 + FirstFailure(respond, n + |StepEvents(p[0])|, p[1..])
  }

  lemma {:induction false} EmitAppend(p: seq<Step>, q: seq<Step>)
    ensures Emit(p + q) == Emit(p) + Emit(q)
    decreases |p|
  {
    if p == [] {
      assert p + q == q;
    } else {
      assert (p + q)[0] == p[0];
      assert (p + q)[1..] == p[1..] + q;
      EmitAppend(p[1..], q);
    }
  }

  /** Running a single step followed by more steps. */
  lemma RunCons(respond: Oracle, n: nat, s: Step, rest: seq<Step>)
    ensures Run(respond, n, [s] + rest) ==
      if s.checked && respond(n) != EspOk then Outcome(StepEvents(s), respond(n))
      else Prepend(StepEvents(s), Run(respond, n + |StepEvents(s)|, rest))
  {
    assert ([s] + rest)[0] == s;
    assert ([s] + rest)[1..] == rest;
  }

  /** Running `p + q`: `q` runs only when `p` returned success, right after `p`'s events. */
  lemma {:induction false} RunAppend(respond: Oracle, n: nat, p: seq<Step>, q: seq<Step>)
    ensures var a := Run(respond, n, p);
      Run(respond, n, p + q) ==
        if a.ret != EspOk then a else Prepend(a.events, Run(respond, n + |a.events|, q))
    decreases |p|
  {
    if p == [] {
      assert p + q == q;
    } else {
      var here := StepEvents(p[0]);
      assert (p + q)[0] == p[0];
      assert (p + q)[1..] == p[1..] + q;
      if !(p[0].checked && respond(n) != EspOk) {
        var n' := n + |here|;
        RunAppend(respond, n', p[1..], q);
        var b := Run(respond, n', p[1..]);
        var rq := Run(respond, n' + |b.events|, q);
        assert Run(respond, n, p) == Prepend(here, b);
        assert Run(respond, n, p + q) == Prepend(here, Run(respond, n', p[1..] + q));
        PrependSplit(here, b, Run(respond, n', p[1..] + q), rq);
        assert n + |Prepend(here, b).events| == n' + |b.events|;
      }
    }
  }

  /** A run that a first call's events `here` precede, split after its first part `b`. */
  lemma PrependSplit(here: seq<Event>, b: Outcome, whole: Outcome, rq: Outcome)
    requires whole == if b.ret != EspOk then b else Prepend(b.events, rq)
    ensures var a := Prepend(here, b);
      Prepend(here, whole) == if a.ret != EspOk then a else Prepend(a.events, rq)
  {
    if b.ret == EspOk {
      PrependTwice(here, b.events, rq);
    }
  }

  /** Every checked call of `p` succeeds. These are the only answers of the oracle that
      can end a run: delays are not calls, and an unchecked result is overwritten. */
  ghost predicate CallsSucceed(respond: Oracle, n: nat, p: seq<Step>)
  {
    forall i :: 0 <= i < |p| && p[i].checked ==> respond(Pos(n, p, i)) == EspOk
  }

  /** When every checked call succeeds, a run emits the whole list and returns success. */
  lemma RunSucceeds(respond: Oracle, n: nat, p: seq<Step>)
    requires CallsSucceed(respond, n, p)
    ensures Run(respond, n, p) == Outcome(Emit(p), EspOk)
  {
    FirstFailureIsFirst(respond, n, p);
    RunStopsAtFirstFailure(respond, n, p);
  }

  lemma PosTail(n: nat, p: seq<Step>, i: nat)
    requires i < |p|
    ensures Pos(n, p, i + 1) == Pos(n + |StepEvents(p[0])|, p[1..], i)
    ensures Pos(n, p, 0) == n
  {
    assert p[..i + 1] == [p[0]] + p[1..][..i];
    EmitAppend([p[0]], p[1..][..i]);
    assert p[..0] == [];
  }

  /** FirstFailure names the earliest checked call that fails: every checked call before
      it succeeded, and its own call failed. */
  lemma {:induction false} FirstFailureIsFirst(respond: Oracle, n: nat, p: seq<Step>)
    ensures var k := FirstFailure(respond, n, p);
      (k < |p| ==> p[k].checked && respond(Pos(n, p, k)) != EspOk) &&
      (forall i :: 0 <= i < k && p[i].checked ==> respond(Pos(n, p, i)) == EspOk)
    decreases |p|
  {
    if p != [] {
      PosTail(n, p, 0);
      if !(p[0].checked && respond(n) != EspOk) {
        var n' := n + |StepEvents(p[0])|;
        FirstFailureIsFirst(respond, n', p[1..]);
        var k := FirstFailure(respond, n, p);
        forall i | 0 <= i < k && p[i].checked
          ensures respond(Pos(n, p, i)) == EspOk
        {
          if i > 0 { PosTail(n, p, i - 1); }
        }
        if k < |p| { PosTail(n, p, k - 1); }
      }
    }
  }

  /** Error propagation: a run stops right after the first checked call that fails,
      having emitted exactly the steps up to and including it, and returns that call's
      error; when no checked call fails it emits every step and returns success. */
  lemma {:induction false} RunStopsAtFirstFailure(respond: Oracle, n: nat, p: seq<Step>)
    ensures var k := FirstFailure(respond, n, p);
      Run(respond, n, p) ==
        if k == |p| then Outcome(Emit(p), EspOk)
        else Outcome(Emit(p[..k + 1]), respond(Pos(n, p, k)))
    decreases |p|
  {
    if p != [] {
      PosTail(n, p, 0);
      var here := StepEvents(p[0]);
      if p[0].checked && respond(n) != EspOk {
        assert p[..1] == [p[0]];
        EmitAppend([p[0]], []);
        assert [p[0]][1..] == [];
      } else {
        var n' := n + |here|;
        RunStopsAtFirstFailure(respond, n', p[1..]);
        var k := FirstFailure(respond, n, p);
        if k < |p| {
          PosTail(n, p, k - 1);
          assert p[..k + 1] == [p[0]] + p[1..][..k];
          EmitAppend([p[0]], p[1..][..k]);
          assert [p[0]][1..] == [];
        }
      }
    }
  }

  /** Whatever a run emits is a prefix of what the list emits when it runs to the end. */
  lemma RunEmitsPrefix(respond: Oracle, n: nat, p: seq<Step>)
    ensures Run(respond, n, p).events <= Emit(p)
    ensures Run(respond, n, p).ret == EspOk ==> Run(respond, n, p).events == Emit(p)
  {
    RunStopsAtFirstFailure(respond, n, p);
    var k := FirstFailure(respond, n, p);
    if k < |p| {
      FirstFailureIsFirst(respond, n, p);
      assert p == p[..k + 1] + p[k + 1..];
      EmitAppend(p[..k + 1], p[k + 1..]);
    }
  }

  /** A single step returns its call's result when checked, success otherwise. */
  lemma RunOne(respond: Oracle, n: nat, s: Step)
    ensures Run(respond, n, [s]) ==
      Outcome(StepEvents(s), if s.checked then respond(n) else EspOk)
  {
    RunCons(respond, n, s, []);
  }

  /** Sequential composition as the imperative code performs it. The whole operation
      `w` started on trace `t0`, has emitted `d`, and has `p + q` left to run; the trace `t`
      shows `p` performed, returning `ret`. Either `ret` is an error and ends the operation,
      or `q` is left to run on `t`. */
  lemma Continue(respond: Oracle, w: Outcome, t0: seq<Event>, d: seq<Event>, t: seq<Event>,
                 p: seq<Step>, q: seq<Step>, ret: EspErr) returns (d': seq<Event>)
    requires w == Prepend(d, Run(respond, |t0 + d|, p + q))
    requires t == t0 + d + Run(respond, |t0 + d|, p).events
    requires ret == Run(respond, |t0 + d|, p).ret
    ensures ret != EspOk ==> t == t0 + w.events && w.ret == ret
    ensures ret == EspOk ==> t == t0 + d' && w == Prepend(d', Run(respond, |t|, q))
  {
    d' := d + Run(respond, |t0 + d|, p).events;
    if ret == EspOk {
      ContinueAfter(respond, w, t0, d, t, p, q);
    } else {
      StopAfter(respond, w, t0, d, t, p, q);
    }
  }

  lemma StopAfter(respond: Oracle, w: Outcome, t0: seq<Event>, d: seq<Event>, t: seq<Event>,
                  p: seq<Step>, q: seq<Step>)
    requires w == Prepend(d, Run(respond, |t0 + d|, p + q))
    requires t == t0 + d + Run(respond, |t0 + d|, p).events
    requires Run(respond, |t0 + d|, p).ret != EspOk
    ensures t == t0 + w.events && w.ret == Run(respond, |t0 + d|, p).ret
  {
    var r := Run(respond, |t0 + d|, p);
    RunAppend(respond, |t0 + d|, p, q);
    assert t == t0 + (d + r.events);
  }

  lemma ContinueAfter(respond: Oracle, w: Outcome, t0: seq<Event>, d: seq<Event>, t: seq<Event>,
                      p: seq<Step>, q: seq<Step>)
    requires w == Prepend(d, Run(respond, |t0 + d|, p + q))
    requires t == t0 + d + Run(respond, |t0 + d|, p).events
    requires Run(respond, |t0 + d|, p).ret == EspOk
    ensures var d' := d + Run(respond, |t0 + d|, p).events;
      t == t0 + d' && w == Prepend(d', Run(respond, |t|, q))
  {
    var n := |t0 + d|;
    var r := Run(respond, n, p);
    var rq := Run(respond, n + |r.events|, q);
    RunAppend(respond, n, p, q);
    Sequence(w, t0, d, t, r, rq, Run(respond, n, p + q));
  }

  lemma Sequence(w: Outcome, t0: seq<Event>, d: seq<Event>, t: seq<Event>, r: Outcome, rq: Outcome, whole: Outcome)
    requires w == Prepend(d, whole)
    requires whole == Prepend(r.events, rq)
    requires t == t0 + d + r.events
    ensures t == t0 + (d + r.events) && w == Prepend(d + r.events, rq) && |t| == |t0 + d| + |r.events|
  {
    PrependTwice(d, r.events, rq);
  }

  lemma Conclude(respond: Oracle, w: Outcome, t0: seq<Event>, d: seq<Event>, t: seq<Event>,
                 p: seq<Step>, ret: EspErr)
    requires w == Prepend(d, Run(respond, |t0 + d|, p))
    requires t == t0 + d + Run(respond, |t0 + d|, p).events
    requires ret == Run(respond, |t0 + d|, p).ret
    ensures t == t0 + w.events && w.ret == ret
  {
    assert t == t0 + (d + Run(respond, |t0 + d|, p).events);
  }

  /** Continue for a checked call without a delay, performed on its own. */
  lemma Call(respond: Oracle, w: Outcome, t0: seq<Event>, d: seq<Event>, t: seq<Event>,
             s: Step, q: seq<Step>, ret: EspErr)
    requires s.wait == 0 && s.checked
    requires w == Prepend(d, Run(respond, |t0 + d|, [s] + q))
    requires t == t0 + d + [s.call] && ret == respond(|t0 + d|)
    ensures ret != EspOk ==> t == t0 + w.events && w.ret == ret
    ensures ret == EspOk ==>
      t == t0 + (d + [s.call]) && w == Prepend(d + [s.call], Run(respond, |t|, q))
  {
    RunCons(respond, |t0 + d|, s, q);
    assert t == t0 + (d + [s.call]);
    if ret == EspOk {
      PrependTwice(d, [s.call], Run(respond, |t|, q));
    }
  }

  /** Conclude for a checked call without a delay, performed on its own. */
  lemma CallLast(respond: Oracle, w: Outcome, t0: seq<Event>, d: seq<Event>, t: seq<Event>,
                 s: Step, ret: EspErr)
    requires s.wait == 0 && s.checked
    requires w == Prepend(d, Run(respond, |t0 + d|, [s]))
    requires t == t0 + d + [s.call] && ret == respond(|t0 + d|)
    ensures t == t0 + w.events && w.ret == ret
  {
    RunOne(respond, |t0 + d|, s);
    assert t == t0 + (d + [s.call]);
  }

  lemma TakeAppend<T>(a: seq<T>, b: seq<T>)
    ensures (a + b)[..|a|] == a
  {
  }

  /** A list of steps without delays emits exactly its calls, one trace position each. */
  lemma {:induction false} EmitWithoutDelays(p: seq<Step>)
    requires forall i :: 0 <= i < |p| ==> p[i].wait == 0
    ensures |Emit(p)| == |p|
    ensures forall i :: 0 <= i < |p| ==> Emit(p)[i] == p[i].call
    decreases |p|
  {
    if p != [] {
      EmitWithoutDelays(p[1..]);
    }
  }

  lemma PosWithoutDelays(n: nat, p: seq<Step>, i: nat)
    requires forall i :: 0 <= i < |p| ==> p[i].wait == 0
    requires i <= |p|
    ensures Pos(n, p, i) == n + i
  {
    EmitWithoutDelays(p[..i]);
  }
}
