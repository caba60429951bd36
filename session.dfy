/** Device session setup (main/main.c:143-162): tm1640_init configures the pins and drives
    both lines to their idle-high level. */
module Session {
  import opened Gpio
  import opened Steps

  /** tm1640_init(clockPin, dataPin): direction and pull-up of clockPin, CLOCK high, then
      direction and pull-up of the DATA pin, DATA high; every result is checked and there
      is no delay. As written, dataPin is never used: the DATA steps name the fixed DATA
      pin, and CLOCK is driven through the fixed CLOCK pin, not clockPin. */
  function InitProg(clockPin: Pin, dataPin: Pin): seq<Step>
  {
    [Checked(SetOutput(clockPin)), Checked(PullUp(clockPin)), Checked(SetLevel(ClockPin, High)),
     Checked(SetOutput(DataPin)), Checked(PullUp(DataPin)), Checked(SetLevel(DataPin, High))]
  }

  /** tm1640_init's step list as the C function performs it, one call after the other. */
  lemma InitInOrder(clockPin: Pin, dataPin: Pin)
    ensures InitProg(clockPin, dataPin) ==
      [Checked(SetOutput(clockPin))] + ([Checked(PullUp(clockPin))] +
        ([Checked(SetLevel(ClockPin, High))] + ([Checked(SetOutput(DataPin))] +
          ([Checked(PullUp(DataPin))] + [Checked(SetLevel(DataPin, High))]))))
  {
  }

  /** The six driver calls of tm1640_init, in order. */
  function InitEvents(clockPin: Pin): seq<Event>
  {
    [SetOutput(clockPin), PullUp(clockPin), SetLevel(ClockPin, High),
     SetOutput(DataPin), PullUp(DataPin), SetLevel(DataPin, High)]
  }

  /** tm1640_init, its first driver call recorded at position n. */
  function InitSpec(respond: Oracle, n: nat, clockPin: Pin, dataPin: Pin): Outcome
  {
    Run(respond, n, InitProg(clockPin, dataPin))
  }

  lemma EmitInit(clockPin: Pin, dataPin: Pin)
    ensures Emit(InitProg(clockPin, dataPin)) == InitEvents(clockPin)
  {
    EmitWithoutDelays(InitProg(clockPin, dataPin));
  }

  /** Init order: when every call succeeds, tm1640_init makes its six calls in order and
      returns success. */
  lemma InitSucceeds(respond: Oracle, n: nat, clockPin: Pin, dataPin: Pin)
    requires SucceedsFrom(respond, n, 6)
    ensures InitSpec(respond, n, clockPin, dataPin) == Outcome(InitEvents(clockPin), EspOk)
  {
    var p := InitProg(clockPin, dataPin);
    assert forall i :: 0 <= i < 6 ==> p[i].wait == 0;
    forall i | 0 <= i < |p| && p[i].checked
      ensures respond(Pos(n, p, i)) == EspOk
    {
      PosWithoutDelays(n, p, i);
    }
    EmitInit(clockPin, dataPin);
    RunSucceeds(respond, n, p);
  }

  /** tm1640_init returns at its first failing call, with that call's error, having made
      that call and none after it. */
  lemma InitStopsAtFailure(respond: Oracle, n: nat, clockPin: Pin, dataPin: Pin, k: nat)
    requires k < 6 && respond(n + k) != EspOk
    requires SucceedsFrom(respond, n, k)
    ensures InitSpec(respond, n, clockPin, dataPin) ==
      Outcome(InitEvents(clockPin)[..k + 1], respond(n + k))
  {
    var p := InitProg(clockPin, dataPin);
    assert forall i :: 0 <= i < 6 ==> p[i].checked && p[i].wait == 0;
    RunStopsAtFirstFailure(respond, n, p);
    FirstFailureIsFirst(respond, n, p);
    var f := FirstFailure(respond, n, p);
    PosWithoutDelays(n, p, k);
    PosWithoutDelays(n, p, f);
    assert f == k;
    var pre, post := p[..k + 1], p[k + 1..];
    EmitWithoutDelays(pre);
    assert p == pre + post;
    EmitAppend(pre, post);
    EmitInit(clockPin, dataPin);
    TakeAppend(Emit(pre), Emit(post));
  }

  /** The data_pin argument has no effect on what tm1640_init does. */
  lemma InitIgnoresDataPin(respond: Oracle, n: nat, clockPin: Pin, d1: Pin, d2: Pin)
    ensures InitSpec(respond, n, clockPin, d1) == InitSpec(respond, n, clockPin, d2)
  {
  }
}
