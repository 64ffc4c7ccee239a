/** One-time codes (app/security.py, app/db.py, app/routes/account.py): a code is matched against the row as it was read
    and its time step claimed later, so several sign-ins with one code can be on their way at once. */
module Totp {
  import opened Wrappers

  /** The code of each time step, from the user's secret. */
  type Codes = int -> string

  predicate WellFormed(code: string) {
    |code| == 6 && forall i :: 0 <= i < |code| ==> '0' <= code[i] <= '9'
  }

  /** A step that `code` is good for: not used yet, and one step either side of the clock. */
  predicate Fits(codes: Codes, code: string, lastStep: int, current: int, step: int) {
    current - 1 <= step <= current + 1 && step > lastStep && codes(step) == code
  }

  method VerifyTotp(codes: Codes, code: string, lastStep: int, current: int) returns (r: Option<int>)
    ensures r.Some? <==> WellFormed(code) && exists step :: Fits(codes, code, lastStep, current, step)
    ensures r.Some? ==> Fits(codes, code, lastStep, current, r.value)
                        && forall step :: Fits(codes, code, lastStep, current, step) ==> r.value <= step
  {
    if !WellFormed(code) { return None; }
    for step := current - 1 to current + 2
      invariant forall earlier :: earlier < step ==> !Fits(codes, code, lastStep, current, earlier)
    {
      if step <= lastStep { continue; }
      if codes(step) == code {
        assert Fits(codes, code, lastStep, current, step);
        return Some(step);
      }
    }
    return None;
  }

  /** Six digits, for the step before the clock's, the clock's own or the one after, and later than any used. */
  lemma FitsOnlyThree(codes: Codes, code: string, lastStep: int, current: int, step: int)
    ensures Fits(codes, code, lastStep, current, step) <==>
              step in {current - 1, current, current + 1} && lastStep < step && codes(step) == code
    ensures WellFormed(code) <==> |code| == 6 && forall c <- code :: c in "0123456789"
  {
    if WellFormed(code) {
      forall c <- code ensures c in "0123456789" { Digit(c); }
    }
    if |code| == 6 && forall c <- code :: c in "0123456789" {
      forall i | 0 <= i < 6 ensures '0' <= code[i] <= '9' { assert code[i] in code; Digit(code[i]); }
    }
  }

  lemma Digit(c: char)
    ensures c in "0123456789" <==> '0' <= c <= '9'
  {
    var digits := "0123456789";
    if '0' <= c <= '9' { assert digits[c as int - '0' as int] == c; }
  }

  // ── One user's sign-ins ──

  /** A code, by the secret it is made from and its time step. */
  datatype Code = Code(secret: nat, step: int)

  /** `matched`: the sign-ins whose code fitted and whose step is not claimed yet. */
  datatype State = State(secret: Option<nat>, lastStep: int, matched: map<nat, Code>, accepted: seq<Code>)

  /** Turning MFA off and on, and restoring a backup, set the last step anew. */
  datatype Event =
    | Match(signIn: nat, step: int)
    | Claim(signIn: nat)
    | Disable
    | Confirm(secret: nat, step: int)
    | Restore(backup: Option<nat>)

  const NEW_USER := State(None, 0, map[], [])

  predicate Resets(e: Event) {
    e.Disable? || e.Confirm? || e.Restore?
  }

  /** The secret and the last step a reset leaves. */
  function ResetTo(e: Event): (Option<nat>, int)
    requires Resets(e)
  {
    match e
    case Disable => (None, 0)
    case Confirm(secret, step) => (Some(secret), step)
    case Restore(backup) => (backup, 0)
  }

  /** Only the claim compares with the steps used by now; the match compared with those used when it read the row.  The
      claim does not ask whose secret the code was of. */
  function Step(st: State, e: Event): State {
    match e
    case Match(signIn, step) =>
      if st.secret.Some? && step > st.lastStep then st.(matched := st.matched[signIn := Code(st.secret.value, step)]) else st
    case Claim(signIn) =>
      if signIn !in st.matched then st
      else
        var code := st.matched[signIn];
        var left := st.(matched := st.matched - {signIn});
        if st.lastStep < code.step then left.(lastStep := code.step, accepted := st.accepted + [code]) else left
    case _ => st.(secret := ResetTo(e).0, lastStep := ResetTo(e).1)
  }

  /** A sign-in is on its way exactly with a later step than the last one used when it looked. */
  lemma MatchesIff(st: State, signIn: nat, step: int)
    ensures var st' := Step(st, Match(signIn, step));
            if st.secret.Some? && st.lastStep < step then
              signIn in st'.matched && st'.matched[signIn] == Code(st.secret.value, step)
              && st' == st.(matched := st'.matched) && st'.matched - {signIn} == st.matched - {signIn}
            else st' == st
  {
  }

  /** It is let in exactly if its step is still later then, which uses the step up; either way it is over. */
  lemma ClaimsIff(st: State, signIn: nat)
    requires signIn in st.matched
    ensures var (code, st') := (st.matched[signIn], Step(st, Claim(signIn)));
            && (st'.accepted == st.accepted + [code] <==> st.lastStep < code.step)
            && st'.lastStep == Max(st.lastStep, code.step) && st'.matched == st.matched - {signIn} && st'.secret == st.secret
            && (st.lastStep >= code.step ==> st'.accepted == st.accepted)
  {
  }

  function Run(events: seq<Event>): State {
    if events == [] then NEW_USER else Step(Run(events[..|events| - 1]), events[|events| - 1])
  }

  ghost predicate EachOnce(st: State) {
    forall i, j :: 0 <= i < j < |st.accepted| ==> st.accepted[i] != st.accepted[j]
  }

  /** A sign-in claims a used step that the last one, set anew meanwhile, no longer covers. */
  predicate ClaimsStale(st: State, e: Event) {
    e.Claim? && e.signIn in st.matched && st.matched[e.signIn] in st.accepted && st.lastStep < st.matched[e.signIn].step
  }

  ghost predicate NoneStale(events: seq<Event>) {
    events == [] || (NoneStale(events[..|events| - 1]) && !ClaimsStale(Run(events[..|events| - 1]), events[|events| - 1]))
  }

  lemma StepKeepsOnceIff(st: State, e: Event)
    ensures EachOnce(Step(st, e)) <==> EachOnce(st) && !ClaimsStale(st, e)
  {
    var st' := Step(st, e);
    assert forall i :: 0 <= i < |st.accepted| ==> st'.accepted[i] == st.accepted[i];
    if ClaimsStale(st, e) {
      var i :| 0 <= i < |st.accepted| && st.accepted[i] == st.matched[e.signIn];
      assert st'.accepted[i] == st'.accepted[|st.accepted|];
    }
  }

  /** However sign-ins interleave with each other and with resets, each code lets one in exactly when no sign-in claims a
      used step after a reset has taken the last step below it. */
  lemma {:induction false} ACodeIsGoodOnceIff(events: seq<Event>)
    ensures EachOnce(Run(events)) <==> NoneStale(events)
  {
    if events != [] {
      ACodeIsGoodOnceIff(events[..|events| - 1]);
      StepKeepsOnceIff(Run(events[..|events| - 1]), events[|events| - 1]);
    }
  }

  /** Event `r` set the last step below a step already used. */
  ghost predicate LowersAt(events: seq<Event>, r: nat, code: Code) {
    r < |events| && Resets(events[r]) && ResetTo(events[r]).1 < code.step && code in Run(events[..r]).accepted
  }

  /** Two sign-ins by one code have a reset between them. */
  lemma {:induction false} TwiceNeedsReset(events: seq<Event>, i: nat, j: nat)
    requires i < j < |Run(events).accepted| && Run(events).accepted[i] == Run(events).accepted[j]
    ensures exists r: nat :: LowersAt(events, r, Run(events).accepted[i]) && i < |Run(events[..r]).accepted| <= j
  {
    var rest, e := events[..|events| - 1], events[|events| - 1];
    var code := Run(events).accepted[i];
    if j < |Run(rest).accepted| {
      TwiceNeedsReset(rest, i, j);
      var r: nat :| LowersAt(rest, r, code) && i < |Run(rest[..r]).accepted| <= j;
      assert events[..r] == rest[..r];
      assert LowersAt(events, r, code);
    } else {
      LoweredBetween(rest, i, code);
      var r: nat :| LowersAt(rest, r, code) && i < |Run(rest[..r]).accepted| <= j;
      assert events[..r] == rest[..r];
      assert LowersAt(events, r, code);
    }
  }

  lemma {:induction false} LoweredBetween(events: seq<Event>, i: nat, code: Code)
    requires i < |Run(events).accepted| && Run(events).accepted[i] == code && Run(events).lastStep < code.step
    ensures exists r: nat :: LowersAt(events, r, code) && i < |Run(events[..r]).accepted| <= |Run(events).accepted|
  {
    var rest, e := events[..|events| - 1], events[|events| - 1];
    if Resets(e) {
      assert events[..|rest|] == rest && LowersAt(events, |rest|, code);
    } else {
      LoweredBetween(rest, i, code);
      var r: nat :| LowersAt(rest, r, code) && i < |Run(rest[..r]).accepted| <= |Run(rest).accepted|;
      assert events[..r] == rest[..r];
      assert LowersAt(events, r, code);
    }
  }

  /** No sign-in is on its way at a reset, and no used secret comes back with it. */
  predicate Quiet(st: State, e: Event) {
    Resets(e) ==> st.matched == map[] && forall code <- st.accepted :: Some(code.secret) != ResetTo(e).0
  }

  ghost predicate AllQuiet(events: seq<Event>) {
    events == [] || (AllQuiet(events[..|events| - 1]) && Quiet(Run(events[..|events| - 1]), events[|events| - 1]))
  }

  /** Its step is covered, or its secret is out of use. */
  ghost predicate Settled(st: State, code: Code) {
    code.step <= st.lastStep ||
    (st.secret != Some(code.secret) && forall signIn <- st.matched :: st.matched[signIn].secret != code.secret)
  }

  lemma {:induction false} QuietSettles(events: seq<Event>)
    requires AllQuiet(events)
    ensures forall code <- Run(events).accepted :: Settled(Run(events), code)
  {
    if events != [] {
      var before, e := Run(events[..|events| - 1]), events[|events| - 1];
      QuietSettles(events[..|events| - 1]);
      forall code <- Run(events).accepted ensures Settled(Run(events), code) {
        assert code in before.accepted ==> Settled(before, code);
      }
    }
  }

  /** So each code lets one sign-in in wherever resets are quiet, and in particular where there is none. */
  lemma {:induction false} ACodeIsGoodOnce(events: seq<Event>)
    requires AllQuiet(events)
    ensures EachOnce(Run(events))
  {
    if events != [] {
      var before, e := Run(events[..|events| - 1]), events[|events| - 1];
      ACodeIsGoodOnce(events[..|events| - 1]);
      QuietSettles(events[..|events| - 1]);
      StepKeepsOnceIff(before, e);
      assert ClaimsStale(before, e) ==> Settled(before, before.matched[e.signIn]);
    }
  }

  lemma RunMore(events: seq<Event>, e: Event)
    ensures Run(events + [e]) == Step(Run(events), e)
  {
    assert (events + [e])[..|events|] == events;
  }

  /** MFA with secret `secret`, and one sign-in by its code for the step after the one it was set up with. */
  function SignedIn(secret: nat, step: int): seq<Event> {
    [Confirm(secret, step)] + [Match(0, step + 1)] + [Match(1, step + 1)] + [Claim(0)]
  }

  lemma OneIsIn(secret: nat, step: int)
    ensures Run(SignedIn(secret, step)) == State(Some(secret), step + 1, map[1 := Code(secret, step + 1)], [Code(secret, step + 1)])
  {
    RunMore([], Confirm(secret, step));
    assert [] + [Confirm(secret, step)] == [Confirm(secret, step)];
    RunMore([Confirm(secret, step)], Match(0, step + 1));
    RunMore([Confirm(secret, step)] + [Match(0, step + 1)], Match(1, step + 1));
    RunMore([Confirm(secret, step)] + [Match(0, step + 1)] + [Match(1, step + 1)], Claim(0));
  }

  /** One that is not: two sign-ins with one code are on their way when MFA is turned off by the next one. */
  lemma DisablingCanLetACodeInTwice(secret: nat, step: int)
    requires step > 0
    ensures var run := SignedIn(secret, step) + [Match(2, step + 2)] + [Claim(2)] + [Disable] + [Claim(1)];
            !EachOnce(Run(run))
  {
    var matched := SignedIn(secret, step) + [Match(2, step + 2)];
    OneIsIn(secret, step);
    RunMore(SignedIn(secret, step), Match(2, step + 2));
    RunMore(matched, Claim(2));
    RunMore(matched + [Claim(2)], Disable);
    var off := Run(matched + [Claim(2)] + [Disable]);
    assert Code(secret, step + 1) == off.accepted[0] && off.accepted[0] in off.accepted;
    RunMore(matched + [Claim(2)] + [Disable], Claim(1));
    StepKeepsOnceIff(off, Claim(1));
  }

  /** Nor after a restore that brings the secret back: a used code is good again for as long as its time lasts. */
  lemma RestoringCanLetACodeInTwice(secret: nat, step: int)
    requires step >= 0
    ensures var run := SignedIn(secret, step) + [Restore(Some(secret))] + [Match(2, step + 1)] + [Claim(2)];
            !EachOnce(Run(run))
  {
    var back := SignedIn(secret, step) + [Restore(Some(secret))];
    OneIsIn(secret, step);
    RunMore(SignedIn(secret, step), Restore(Some(secret)));
    RunMore(back, Match(2, step + 1));
    var again := Run(back + [Match(2, step + 1)]);
    assert Code(secret, step + 1) == again.accepted[0] && again.accepted[0] in again.accepted;
    RunMore(back + [Match(2, step + 1)], Claim(2));
    StepKeepsOnceIff(again, Claim(2));
  }

  class User {
    var secret: Option<nat>
    var lastStep: int

    constructor ()
      ensures secret == None && lastStep == 0
    {
      secret, lastStep := None, 0;
    }

    method ClaimTotpStep(step: int) returns (claimed: bool)
      modifies `lastStep
      ensures claimed == (step > old(lastStep)) && lastStep == Max(old(lastStep), step)
    {
      claimed := lastStep < step;
      if claimed { lastStep := step; }
    }

    /** Turning MFA off or on. */
    method UpdateTotp(e: Event)
      requires Resets(e)
      modifies this
      ensures (secret, lastStep) == ResetTo(e)
    {
      secret, lastStep := ResetTo(e).0, ResetTo(e).1;
    }
  }
}
