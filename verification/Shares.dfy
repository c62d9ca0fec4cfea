/** The passcode of a share link: how often it can be guessed, and which unlock tokens it leaves
    valid. Times are whole seconds; a passcode hash is represented by the passcode it matches,
    and only tokens the module itself signed exist. */
module Shares {
  import opened Results

  datatype Settings = Settings(maxAttempts: int, lockout: nat, failureCap: int, tokenTtl: nat)

  /** Failures before a lock; a setting below 1 counts as 1. */
  function Burst(cfg: Settings): (m: int)
    ensures m >= 1 && (cfg.maxAttempts >= 1 ==> m == cfg.maxAttempts) && (cfg.maxAttempts < 1 ==> m == 1)
  {
    if cfg.maxAttempts < 1 then 1 else cfg.maxAttempts
  }

  datatype State = State(
    passcode: Option<string>,
    failed: nat,
    lockedUntil: Option<int>,
    version: nat,
    revoked: bool,
    expiresAt: Option<int>)

  datatype Token = Token(share: int, version: nat, mintedAt: int)
  datatype Refusal = NotFound | UnlockDisabled | Throttled(retryAfter: int) | WrongPasscode

  predicate Live(s: State, recordingLive: bool, now: int) {
    !s.revoked && !(s.expiresAt.Some? && s.expiresAt.value <= now) && recordingLive
  }

  predicate CapReached(s: State, cfg: Settings) {
    cfg.failureCap > 0 && s.failed >= cfg.failureCap
  }

  predicate Locked(s: State, now: int) {
    s.lockedUntil.Some? && s.lockedUntil.value > now
  }

  /** Does the passcode reach the password check at all? */
  predicate Evaluates(s: State, cfg: Settings, live: bool, now: int) {
    Live(s, live, now) && s.passcode.Some? && !CapReached(s, cfg) && !Locked(s, now)
  }

  predicate Guessed(s: State, passcode: string) {
    s.passcode == Some(passcode)
  }

  /** The row after an unlock attempt: only an evaluated passcode changes it. */
  function AfterUnlock(s: State, cfg: Settings, live: bool, passcode: string, now: int): State {
    if !Evaluates(s, cfg, live, now) then s
    else if Guessed(s, passcode) then s.(failed := 0, lockedUntil := None)
    else s.(failed := s.failed + 1,
            lockedUntil := if (s.failed + 1) % Burst(cfg) == 0 then Some(now + cfg.lockout) else s.lockedUntil)
  }

  predicate Unlocks(s: State, cfg: Settings, live: bool, passcode: string, now: int) {
    Live(s, live, now) && (s.passcode == None || (Evaluates(s, cfg, live, now) && Guessed(s, passcode)))
  }

  /** An empty passcode is none. */
  function Protecting(passcode: Option<string>): Option<string> {
    if passcode == Some("") then None else passcode
  }

  function Rotated(s: State, passcode: Option<string>): State {
    s.(passcode := Protecting(passcode), version := s.version + 1, failed := 0, lockedUntil := None)
  }

  function Revoked(s: State): State {
    s.(revoked := true, version := s.version + 1)
  }

  predicate Verifies(s: State, id: int, cfg: Settings, token: Token, now: int) {
    now - token.mintedAt <= cfg.tokenTtl && token.share == id && token.version == s.version
  }

  class Share {
    const id: int
    var passcode: Option<string>
    var failed: nat
    var lockedUntil: Option<int>
    var version: nat
    var revoked: bool
    var expiresAt: Option<int>

    function View(): State
      reads this
    {
      State(passcode, failed, lockedUntil, version, revoked, expiresAt)
    }

    constructor (id: int, passcode: Option<string>, expiresAt: Option<int>)
      ensures this.id == id && View() == State(Protecting(passcode), 0, None, 1, false, expiresAt)
    {
      this.id, this.passcode, this.expiresAt := id, Protecting(passcode), expiresAt;
      failed, lockedUntil, version, revoked := 0, None, 1, false;
    }

    /** Check the passcode and hand out a token of the current generation. */
    method Unlock(cfg: Settings, recordingLive: bool, guess: string, now: int) returns (r: Result<Token, Refusal>)
      modifies this
      ensures View() == AfterUnlock(old(View()), cfg, recordingLive, guess, now)
      ensures r.Ok? <==> Unlocks(old(View()), cfg, recordingLive, guess, now)
      ensures r.Ok? ==> r.value == Token(id, version, now)
      ensures r == Err(WrongPasscode) <==> Evaluates(old(View()), cfg, recordingLive, now) && !Guessed(old(View()), guess)
      ensures r == Err(NotFound) <==> old(revoked) || !recordingLive || (old(expiresAt).Some? && old(expiresAt).value <= now)
      ensures r == Err(UnlockDisabled) <==> r != Err(NotFound) && old(passcode).Some? && 0 < cfg.failureCap <= old(failed)
      ensures r.Err? && r.error.Throttled? ==>
                old(lockedUntil).Some? && r.error.retryAfter == old(lockedUntil).value - now >= 1
    {
      if revoked || (expiresAt.Some? && expiresAt.value <= now) || !recordingLive {
        return Err(NotFound);
      }
      if passcode == None {
        return Ok(Token(id, version, now));
      }
      if CapReached(View(), cfg) {
        return Err(UnlockDisabled);
      }
      if lockedUntil.Some? && lockedUntil.value > now {
        var left := lockedUntil.value - now;
        return Err(Throttled(if left < 1 then 1 else left));
      }
      if passcode.value == guess {
        failed := 0;
        lockedUntil := None;
        return Ok(Token(id, version, now));
      }
      RegisterFailure(cfg, now);
      return Err(WrongPasscode);
    }

    method RegisterFailure(cfg: Settings, now: int)
      modifies this`failed, this`lockedUntil
      ensures failed == old(failed) + 1
      ensures lockedUntil == if failed % Burst(cfg) == 0 then Some(now + cfg.lockout) else old(lockedUntil)
    {
      failed := failed + 1;
      if failed % Burst(cfg) == 0 {
        lockedUntil := Some(now + cfg.lockout);
      }
    }

    method SetPasscode(passcode: Option<string>)
      modifies this
      ensures View() == Rotated(old(View()), passcode)
    {
      this.passcode := Protecting(passcode);
      version := version + 1;
      failed := 0;
      lockedUntil := None;
    }

    method Revoke()
      modifies this
      ensures View() == Revoked(old(View()))
    {
      revoked := true;
      version := version + 1;
    }
  }

  // ----- runs

  datatype Act = Try(guess: string, live: bool, now: int) | Change(passcode: Option<string>) | Withdraw

  function Apply(s: State, cfg: Settings, a: Act): State {
    match a
    case Try(passcode, live, now) => AfterUnlock(s, cfg, live, passcode, now)
    case Change(passcode) => Rotated(s, passcode)
    case Withdraw => Revoked(s)
  }

  function Run(s: State, cfg: Settings, tr: seq<Act>): State
    decreases |tr|
  {
    if tr == [] then s else Run(Apply(s, cfg, tr[0]), cfg, tr[1..])
  }

  predicate WrongGuess(s: State, cfg: Settings, a: Act) {
    a.Try? && Evaluates(s, cfg, a.live, a.now) && !Guessed(s, a.guess)
  }

  /** When the wrong passcodes of a run were evaluated. */
  function WrongTimes(s: State, cfg: Settings, tr: seq<Act>): seq<int>
    decreases |tr|
  {
    if tr == [] then []
    else (if WrongGuess(s, cfg, tr[0]) then [tr[0].now] else []) + WrongTimes(Apply(s, cfg, tr[0]), cfg, tr[1..])
  }

  /** Attempts on one passcode, on a clock that never runs backwards, none of them right. */
  predicate Guessing(s: State, cfg: Settings, tr: seq<Act>, since: int)
    decreases |tr|
  {
    tr != [] ==>
      && !tr[0].Change? && (tr[0].Try? ==> since <= tr[0].now && !Unlocks(s, cfg, tr[0].live, tr[0].guess, tr[0].now))
      && Guessing(Apply(s, cfg, tr[0]), cfg, tr[1..], if tr[0].Try? then tr[0].now else since)
  }

  // ----- the pace

  /** How long after the first wrong passcode the one numbered `n` from 0 may come. */
  function Wait(n: nat, cfg: Settings): int {
    (n / Burst(cfg)) * cfg.lockout
  }

  lemma {:induction false} QuotientIs(n: int, m: int, q: int, r: int)
    requires m >= 1 && 0 <= r < m && n == m * q + r
    ensures n / m == q && n % m == r
  {
    var d := n / m - q;
    assert m * (n / m) == m * q + m * d;
    assert -m < m * d < m;
  }

  lemma {:induction false} DivSteps(n: nat, m: int)
    requires m >= 1
    ensures (n + 1) / m == n / m + if (n + 1) % m == 0 then 1 else 0
  {
    var q, r := n / m, n % m;
    assert n == m * q + r;
    if r + 1 < m {
      QuotientIs(n + 1, m, q, r + 1);
    } else {
      assert m * (q + 1) == m * q + m;
      QuotientIs(n + 1, m, q + 1, 0);
    }
  }

  lemma {:induction false} WaitSteps(n: nat, cfg: Settings)
    ensures Wait(n + 1, cfg) == Wait(n, cfg) + if (n + 1) % Burst(cfg) == 0 then cfg.lockout else 0
  {
    var m := Burst(cfg);
    DivSteps(n, m);
    assert (n / m + 1) * cfg.lockout == (n / m) * cfg.lockout + cfg.lockout;
  }

  /** After `n` wrong passcodes in a row the next one can be evaluated no earlier than its place
      in the pace; `last` is the time of the latest attempt, `first` of the first wrong one. */
  predicate Paced(s: State, cfg: Settings, first: int, last: int) {
    && (s.failed > 0 ==> first + Wait(s.failed - 1, cfg) <= last)
    && (s.failed > 0 && s.failed % Burst(cfg) == 0 ==>
          s.lockedUntil.Some? && first + Wait(s.failed, cfg) <= s.lockedUntil.value)
  }

  lemma {:induction false} WrongGuessIsPaced(s: State, cfg: Settings, a: Act, first: int, last: int)
    requires Paced(s, cfg, first, last) && WrongGuess(s, cfg, a) && last <= a.now
    requires s.failed == 0 ==> first == a.now
    ensures first + Wait(s.failed, cfg) <= a.now
    ensures Paced(Apply(s, cfg, a), cfg, first, a.now)
  {
    assert Wait(0, cfg) == 0;
    if s.failed > 0 { WaitSteps(s.failed - 1, cfg); }
    WaitSteps(s.failed, cfg);
  }

  predicate InPace(times: seq<int>, failed: nat, cfg: Settings, first: int) {
    forall n :: 0 <= n < |times| ==> first + Wait(failed + n, cfg) <= times[n]
  }

  lemma {:induction false} PaceExtends(t: int, rest: seq<int>, failed: nat, cfg: Settings, first: int)
    requires InPace(rest, failed + 1, cfg, first) && first + Wait(failed, cfg) <= t
    ensures InPace([t] + rest, failed, cfg, first)
  {
    forall n | 0 <= n < |rest| + 1 ensures first + Wait(failed + n, cfg) <= ([t] + rest)[n] {
      if n > 0 { assert first + Wait(failed + 1 + (n - 1), cfg) <= rest[n - 1]; }
    }
  }

  /** Wrong passcodes in a row: from a count of `s.failed`, the n-th one evaluated later comes no
      earlier than the first plus floor((s.failed + n) / max_attempts) lockouts, and there are
      never more of them than the failure cap leaves. */
  lemma {:induction false} GuessesArePaced(s: State, cfg: Settings, tr: seq<Act>, first: int, last: int)
    requires Guessing(s, cfg, tr, last) && Paced(s, cfg, first, last)
    requires s.failed == 0 ==> WrongTimes(s, cfg, tr) == [] || first == WrongTimes(s, cfg, tr)[0]
    requires cfg.failureCap > 0 ==> s.failed <= cfg.failureCap
    ensures var times := WrongTimes(s, cfg, tr);
            && InPace(times, s.failed, cfg, first)
            && (cfg.failureCap > 0 ==> s.failed + |times| <= cfg.failureCap)
            && Run(s, cfg, tr).failed == s.failed + |times|
    decreases |tr|
  {
    if tr != [] {
      var a, next := tr[0], Apply(s, cfg, tr[0]);
      var rest := WrongTimes(next, cfg, tr[1..]);
      if WrongGuess(s, cfg, a) {
        assert WrongTimes(s, cfg, tr)[0] == a.now;
        WrongGuessIsPaced(s, cfg, a, first, last);
        GuessesArePaced(next, cfg, tr[1..], first, a.now);
        PaceExtends(a.now, rest, s.failed, cfg, first);
      } else {
        GuessesArePaced(next, cfg, tr[1..], first, if a.Try? then a.now else last);
        assert WrongTimes(s, cfg, tr) == rest;
      }
    }
  }

  /** From a clean count, the n-th wrong passcode (from 0) is evaluated no earlier than the first
      plus floor(n / max_attempts) lockouts, and a positive cap bounds how many there ever are. */
  lemma {:induction false} GuessRate(s: State, cfg: Settings, tr: seq<Act>, since: int)
    requires s.failed == 0 && Guessing(s, cfg, tr, since)
    ensures var times := WrongTimes(s, cfg, tr);
            && (forall n :: 0 <= n < |times| ==> times[0] + (n / Burst(cfg)) * cfg.lockout <= times[n])
            && (cfg.failureCap > 0 ==> |times| <= cfg.failureCap)
  {
    var times := WrongTimes(s, cfg, tr);
    GuessesArePaced(s, cfg, tr, if times == [] then 0 else times[0], since);
    forall n | 0 <= n < |times| ensures times[0] + (n / Burst(cfg)) * cfg.lockout <= times[n] {
      assert times[0] + Wait(0 + n, cfg) <= times[n];
    }
  }

  /** Past the cap nothing unlocks and nothing is counted, the right passcode included, until a
      new passcode is set. */
  lemma {:induction false} CapHolds(s: State, cfg: Settings, tr: seq<Act>)
    requires CapReached(s, cfg) && s.passcode.Some? && forall a :: a in tr ==> !a.Change?
    ensures var end := Run(s, cfg, tr);
            && end.failed == s.failed && end.passcode == s.passcode
            && forall live, passcode, now :: !Unlocks(end, cfg, live, passcode, now)
    decreases |tr|
  {
    if tr != [] {
      assert tr[0] in tr;
      CapHolds(Apply(s, cfg, tr[0]), cfg, tr[1..]);
    }
  }

  // ----- when a share is open

  /** A revocation is for good, an expiry date is never moved, and a share outlives no recording. */
  predicate Shut(s: State, tr: seq<Act>, live: bool, now: int) {
    s.revoked || Withdraw in tr || (s.expiresAt.Some? && s.expiresAt.value <= now) || !live
  }

  lemma {:induction false} ShutRemains(s: State, cfg: Settings, tr: seq<Act>)
    ensures Run(s, cfg, tr).revoked <==> s.revoked || Withdraw in tr
    ensures Run(s, cfg, tr).expiresAt == s.expiresAt
    decreases |tr|
  {
    if tr != [] {
      ShutRemains(Apply(s, cfg, tr[0]), cfg, tr[1..]);
      assert tr == [tr[0]] + tr[1..];
    }
  }

  lemma {:induction false} RunAnd(s: State, cfg: Settings, tr: seq<Act>, a: Act)
    ensures Run(s, cfg, tr + [a]) == Apply(Run(s, cfg, tr), cfg, a)
    decreases |tr|
  {
    if tr == [] {
      assert [] + [a] == [a] && [a][1..] == [];
    } else {
      assert (tr + [a])[1..] == tr[1..] + [a];
      RunAnd(Apply(s, cfg, tr[0]), cfg, tr[1..], a);
    }
  }

  /** After any run, whatever passcodes were set in it: a share that is shut unlocks for nobody, and
      neither it nor one without a passcode counts a guess; one that is not unlocks exactly for the right passcode, if it asks for one,
      while the cap is not reached and no lock is on. */
  lemma {:induction false} OpenIff(s: State, cfg: Settings, tr: seq<Act>, live: bool, guess: string, now: int)
    ensures var end := Run(s, cfg, tr);
            Unlocks(end, cfg, live, guess, now)
            <==> && !Shut(s, tr, live, now)
                 && (end.passcode.Some? ==> && end.passcode.value == guess && (cfg.failureCap > 0 ==> end.failed < cfg.failureCap)
                                            && (end.lockedUntil.Some? ==> end.lockedUntil.value <= now))
    ensures Shut(s, tr, live, now) || Run(s, cfg, tr).passcode == None ==> Run(s, cfg, tr + [Try(guess, live, now)]) == Run(s, cfg, tr)
  {
    ShutRemains(s, cfg, tr);
    RunAnd(s, cfg, tr, Try(guess, live, now));
  }

  /** A new passcode is the one that opens the share from then on; an empty one leaves it open. */
  lemma {:induction false} NewPasscodeOpens(s: State, cfg: Settings, tr: seq<Act>, passcode: Option<string>, live: bool, guess: string, now: int)
    ensures Unlocks(Run(s, cfg, tr + [Change(passcode)]), cfg, live, guess, now)
            <==> !Shut(s, tr, live, now) && passcode in {None, Some(""), Some(guess)}
  {
    ShutRemains(s, cfg, tr);
    RunAnd(s, cfg, tr, Change(passcode));
  }

  /** The count starts afresh: a new passcode is set, or the right one is given. */
  predicate Clears(s: State, cfg: Settings, a: Act) {
    a.Change? || (a.Try? && s.passcode.Some? && Unlocks(s, cfg, a.live, a.guess, a.now))
  }

  /** From there on every wrong passcode counts one. Each time max_attempts have come together the
      share locks for the lockout and no longer, not before, and the cap is reached when the count is. */
  lemma {:induction false} EveryBurstLocks(s: State, cfg: Settings, a: Act, tr: seq<Act>, since: int, wrong: Act)
    requires Clears(s, cfg, a) && Guessing(Apply(s, cfg, a), cfg, tr, since)
    requires WrongGuess(Run(Apply(s, cfg, a), cfg, tr), cfg, wrong)
    ensures var start := Apply(s, cfg, a);
            var before, n := Run(start, cfg, tr), |WrongTimes(start, cfg, tr)| + 1;
            var after := Apply(before, cfg, wrong);
            && start.lockedUntil == None && after.failed == n
            && after.lockedUntil == (if n % Burst(cfg) == 0 then Some(wrong.now + cfg.lockout) else before.lockedUntil)
            && (CapReached(after, cfg) <==> 0 < cfg.failureCap == n)
  {
    var start := Apply(s, cfg, a);
    var times := WrongTimes(start, cfg, tr);
    GuessesArePaced(start, cfg, tr, if times == [] then 0 else times[0], since);
  }

  // ----- tokens

  predicate Rotates(a: Act) {
    a.Change? || a.Withdraw?
  }

  function Rotations(tr: seq<Act>): nat {
    if tr == [] then 0 else (if Rotates(tr[0]) then 1 else 0) + Rotations(tr[1..])
  }

  lemma {:induction false} VersionCountsRotations(s: State, cfg: Settings, tr: seq<Act>)
    ensures Run(s, cfg, tr).version == s.version + Rotations(tr)
    decreases |tr|
  {
    if tr != [] { VersionCountsRotations(Apply(s, cfg, tr[0]), cfg, tr[1..]); }
  }

  /** A token minted before a run verifies after it exactly when the run rotated nothing, it is
      this share's and it has not expired: no rotation or revocation is ever outlived. */
  lemma {:induction false} TokenVerifiesIff(s: State, id: int, cfg: Settings, tr: seq<Act>, token: Token, now: int)
    requires token.version == s.version
    ensures Verifies(Run(s, cfg, tr), id, cfg, token, now)
        <==> Rotations(tr) == 0 && token.share == id && now - token.mintedAt <= cfg.tokenTtl
  {
    VersionCountsRotations(s, cfg, tr);
  }

  /** Nor does any older token come back to life. */
  lemma {:induction false} OldTokensStayDead(s: State, id: int, cfg: Settings, tr: seq<Act>, token: Token, now: int)
    requires token.version < s.version
    ensures !Verifies(Run(s, cfg, tr), id, cfg, token, now)
  {
    VersionCountsRotations(s, cfg, tr);
  }
}
