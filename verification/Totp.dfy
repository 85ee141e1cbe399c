/** The TOTP window of service/totp.go. */
module Totp {
  import opened Prelude
  import opened World

  const PERIOD := 30

  /** Go's integer division truncates toward zero. */
  function CurrentStep(now: int): int {
    if now >= 0 then now / PERIOD else -((-now) / PERIOD)
  }

  /** uint64(step) */
  function Counter(step: int): nat {
    step % 0x1_0000_0000_0000_0000
  }

  predicate Acceptable(w: World, secret: string, code: string, lastStep: int, step: int) {
    w.hotp(secret, code, Counter(step)) && step > lastStep
  }

  function VerifyTOTP(w: World, secret: string, code: string, lastStep: int, now: int): Option<int> {
    var cur := CurrentStep(now);
    if Acceptable(w, secret, code, lastStep, cur - 1) then Some(cur - 1)
    else if Acceptable(w, secret, code, lastStep, cur) then Some(cur)
    else if Acceptable(w, secret, code, lastStep, cur + 1) then Some(cur + 1)
    else None
  }

  /** The scan as the source writes it. */
  method ScanWindow(w: World, secret: string, code: string, lastStep: int, now: int) returns (step: int, ok: bool)
    ensures ok ==> VerifyTOTP(w, secret, code, lastStep, now) == Some(step)
    ensures !ok ==> VerifyTOTP(w, secret, code, lastStep, now) == None && step == 0
  {
    var cur := CurrentStep(now);
    var steps := [cur - 1, cur, cur + 1];
    for i := 0 to 3
      invariant forall k :: 0 <= k < i ==> !Acceptable(w, secret, code, lastStep, steps[k])
    {
      if w.hotp(secret, code, Counter(steps[i])) && steps[i] > lastStep {
        assert i == 0 || !Acceptable(w, secret, code, lastStep, steps[0]);
        assert i <= 1 || !Acceptable(w, secret, code, lastStep, steps[1]);
        return steps[i], true;
      }
    }
    assert !Acceptable(w, secret, code, lastStep, steps[0]);
    assert !Acceptable(w, secret, code, lastStep, steps[1]);
    assert !Acceptable(w, secret, code, lastStep, steps[2]);
    return 0, false;
  }

  /** Accepts exactly when some step of the window matches and is later than the last one,
      and then answers the least such step. */
  lemma AcceptsLeast(w: World, secret: string, code: string, lastStep: int, now: int, step: int)
    ensures VerifyTOTP(w, secret, code, lastStep, now) == Some(step)
       <==> && CurrentStep(now) - 1 <= step <= CurrentStep(now) + 1
            && Acceptable(w, secret, code, lastStep, step)
            && forall other :: CurrentStep(now) - 1 <= other < step ==> !Acceptable(w, secret, code, lastStep, other)
    ensures VerifyTOTP(w, secret, code, lastStep, now).None?
       <==> forall other :: CurrentStep(now) - 1 <= other <= CurrentStep(now) + 1
              ==> !Acceptable(w, secret, code, lastStep, other)
  {
  }

  /** A step of any clock past 1970 is its own counter; the step before zero wraps. */
  lemma CounterOfStep(step: int)
    ensures 0 <= step < 0x1_0000_0000_0000_0000 ==> Counter(step) == step
    ensures step == -1 ==> Counter(step) == 0xFFFF_FFFF_FFFF_FFFF
  {
  }

  /** The step matches the code and is later than the last one. */
  predicate Fits(w: World, secret: string, code: string, lastStep: int, step: nat) {
    w.hotp(secret, code, step) && step > lastStep
  }

  /** The window of section 5.2 of RFC 6238, from the second period of 1970 to the end of int64 seconds: the
      answer is the least of now / 30 - 1, now / 30 and now / 30 + 1 that fits. */
  lemma VerifiesWithin(w: World, secret: string, code: string, lastStep: int, now: int, step: nat)
    requires 30 <= now < 0x8000_0000_0000_0000
    ensures VerifyTOTP(w, secret, code, lastStep, now) == Some(step)
       <==> && now / 30 - 1 <= step <= now / 30 + 1 && Fits(w, secret, code, lastStep, step)
            && forall other: nat :: now / 30 - 1 <= other < step ==> !Fits(w, secret, code, lastStep, other)
    ensures VerifyTOTP(w, secret, code, lastStep, now).None?
       <==> forall other: nat :: now / 30 - 1 <= other <= now / 30 + 1 ==> !Fits(w, secret, code, lastStep, other)
  {
    var cur: nat := now / 30;
    CounterOfStep(cur - 1);
    CounterOfStep(cur);
    CounterOfStep(cur + 1);
    var before: nat := cur - 1;
    assert Acceptable(w, secret, code, lastStep, cur - 1) == Fits(w, secret, code, lastStep, before);
    assert Acceptable(w, secret, code, lastStep, cur) == Fits(w, secret, code, lastStep, cur);
    assert Acceptable(w, secret, code, lastStep, cur + 1) == Fits(w, secret, code, lastStep, cur + 1);
  }

  /** With the clock set back far enough every code is refused. */
  lemma ClockSetBackRefuses(w: World, secret: string, code: string, lastStep: int, now: int)
    requires CurrentStep(now) + 1 <= lastStep
    ensures VerifyTOTP(w, secret, code, lastStep, now).None?
  {
  }

  lemma CurrentStepMonotone(now: int, later: int)
    requires now <= later
    ensures CurrentStep(now) <= CurrentStep(later)
  {
  }

  /** One period later the current step is one more, except across the epoch, where truncation
      makes the step zero twice as long. */
  lemma OnePeriodLaterIff(now: int)
    ensures CurrentStep(now + PERIOD) == CurrentStep(now) + 1 <==> !(-PERIOD < now < 0)
  {
  }

  /** A last step no later than the next one is passed within one period: the code of the newest
      step of the window is then accepted. */
  lemma AcceptedAfterOnePeriod(w: World, secret: string, code: string, lastStep: int, now: int)
    requires now >= 0 && lastStep <= CurrentStep(now) + 1
    requires w.hotp(secret, code, Counter(CurrentStep(now + PERIOD) + 1))
    ensures VerifyTOTP(w, secret, code, lastStep, now + PERIOD).Some?
  {
    OnePeriodLaterIff(now);
    assert Acceptable(w, secret, code, lastStep, CurrentStep(now + PERIOD) + 1);
  }
}
