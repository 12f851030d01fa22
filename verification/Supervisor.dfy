/** config/deployment/v24_java_lifecycle.py: one supervisor, two child processes, and an environment
    that may end a child, send a signal or let the clock run out at any moment.

    A run is driven by a tape of observations, one per moment at which the supervisor looks at the
    world. Every finite tape is allowed, so what holds for all tapes holds at every point of every run.
 */
module Supervisor {

  datatype Child = Java | Api

  /** What the readiness endpoint says; an answer of the wrong shape is an exception in `ready`. */
  datatype Answer = Ready | NotYet | Broken

  /** What the world shows at one look. */
  datatype Look = Look(signal: bool, late: bool, javaUp: bool, apiUp: bool, answer: Answer)

  /** The one-off answers of the operating system, whether a signal arrives around the launch, and how
      stopping goes: whether some child is left at each look within the five seconds, and for which
      children a signal is refused with an error other than "no such process". */
  datatype System = System(contractHolds: bool, portFree: bool, javaStarts: bool, announceWorks: bool, apiStarts: bool,
                           signalBeforeLaunch: bool, signalAtLaunch: bool,
                           lingering: seq<bool>, termRefused: set<Child>, killRefused: set<Child>)

  datatype Act =
    | InstallHandlers | RestoreHandlers
    | Start(child: Child) | Poll(child: Child, up: bool)
    | Probe(ready: bool) | Announce | Interrupted | TimedOut
    | Term(child: Child) | Linger(left: bool) | Kill(child: Child) | Reap(child: Child)

  datatype Failure =
    | ContractBroken | PortTaken | JavaNotStarted | JavaExited | NotReady | ProbeBroken | AnnounceFailed | NoCommand | ApiNotStarted
    | StopRefused

  datatype Outcome = Returned(code: int) | Raised(why: Failure) | Running   // Running: the tape ended first

  // ------------------------------------------------------------------ stop

  function Terms(children: seq<Child>): seq<Act> {
    seq(|children|, i requires 0 <= i < |children| => Term(children[i]))
  }

  function KillsAndReaps(children: seq<Child>): seq<Act> {
    if children == [] then [] else
      KillsAndReaps(children[..|children| - 1]) + [Kill(children[|children| - 1]), Reap(children[|children| - 1])]
  }

  /** The wait of up to five seconds, which ends early when no child is left. */
  function Lingering(looks: seq<bool>): seq<Act> {
    if looks == [] then [] else [Linger(looks[0])] + if looks[0] then Lingering(looks[1..]) else []
  }

  /** All that `stop` sets out to do. */
  function TearDown(children: seq<Child>, looks: seq<bool>): seq<Act> {
    Terms(children) + Lingering(looks) + KillsAndReaps(children)
  }

  predicate Refused(system: System, a: Act) {
    (a.Term? && a.child in system.termRefused) || (a.Kill? && a.child in system.killRefused)
  }

  /** A refused signal is an exception: nothing after it is done. */
  function Attempted(system: System, acts: seq<Act>): seq<Act> {
    if acts == [] || Refused(system, acts[0]) then [] else [acts[0]] + Attempted(system, acts[1..])
  }

  lemma {:induction false} AttemptedWhole(system: System, done: seq<Act>, rest: seq<Act>)
    requires forall a | a in done :: !Refused(system, a)
    ensures Attempted(system, done + rest) == done + Attempted(system, rest)
  {
    if done == [] {
      assert done + rest == rest;
    } else {
      assert (done + rest)[1..] == done[1..] + rest;
      AttemptedWhole(system, done[1..], rest);
    }
  }

  predicate StopsCleanly(system: System, children: seq<Child>) {
    forall c | c in children :: c !in system.termRefused && c !in system.killRefused
  }

  lemma {:induction false} KillsAppend(a: seq<Child>, b: seq<Child>)
    ensures KillsAndReaps(a + b) == KillsAndReaps(a) + KillsAndReaps(b)
  {
    if b == [] {
      assert a + b == a;
    } else {
      var n := |b| - 1;
      KillsAppend(a, b[..n]);
      assert (a + b)[..|a + b| - 1] == a + b[..n];
    }
  }

  lemma KillsFrom(children: seq<Child>, i: nat)
    requires i < |children|
    ensures KillsAndReaps(children[i..]) == [Kill(children[i]), Reap(children[i])] + KillsAndReaps(children[i + 1..])
  {
    var one := [children[i]];
    KillsAppend(one, children[i + 1..]);
    assert one[..0] == [] && KillsAndReaps(one) == [Kill(children[i]), Reap(children[i])];
    assert children[i..] == one + children[i + 1..];
  }

  /** `stop`: ask every process group to end, wait, then kill and reap every one of them, ended or not. */
  method Stop(system: System, children: seq<Child>) returns (log: seq<Act>, ok: bool)
    ensures ok <==> StopsCleanly(system, children)
    ensures log == Attempted(system, TearDown(children, system.lingering))
  {
    hide Attempted, KillsAndReaps, Lingering;
    var all := TearDown(children, system.lingering);
    ghost var rest := Lingering(system.lingering) + KillsAndReaps(children);
    log := [];
    for i := 0 to |children|
      invariant log == Terms(children)[..i] && forall c | c in children[..i] :: c !in system.termRefused
    {
      assert all == log + ([Term(children[i])] + (Terms(children)[i + 1..] + rest));
      AttemptedWhole(system, log, [Term(children[i])] + (Terms(children)[i + 1..] + rest));
      if children[i] in system.termRefused {
        RefusedAtOnce(system, Term(children[i]), Terms(children)[i + 1..] + rest);
        return log, false;
      }
      log := log + [Term(children[i])];
    }
    assert log == Terms(children);
    var waited := Linger5(system.lingering);
    log := log + waited;
    assert children[0..] == children;
    for i := 0 to |children|
      invariant all == log + KillsAndReaps(children[i..]) && forall a | a in log :: !Refused(system, a)
      invariant forall c | c in children[..i] :: c !in system.killRefused
    {
      KillsFrom(children, i);
      AttemptedWhole(system, log, KillsAndReaps(children[i..]));
      if children[i] in system.killRefused {
        assert KillsAndReaps(children[i..]) == [Kill(children[i])] + ([Reap(children[i])] + KillsAndReaps(children[i + 1..]));
        RefusedAtOnce(system, Kill(children[i]), [Reap(children[i])] + KillsAndReaps(children[i + 1..]));
        return log, false;
      }
      assert log + ([Kill(children[i]), Reap(children[i])] + KillsAndReaps(children[i + 1..])) ==
             log + [Kill(children[i]), Reap(children[i])] + KillsAndReaps(children[i + 1..]);
      log := log + [Kill(children[i]), Reap(children[i])];
    }
    NothingToKill();
    assert children[|children|..] == [] && all == log + [];
    AttemptedWhole(system, log, []);
    ok := true;
  }

  lemma RefusedAtOnce(system: System, a: Act, rest: seq<Act>)
    requires Refused(system, a)
    ensures Attempted(system, [a] + rest) == []
  {
  }

  lemma NothingToKill()
    ensures KillsAndReaps([]) == [] && forall system :: Attempted(system, []) == []
  {
  }

  /** The waiting loop. */
  method Linger5(looks: seq<bool>) returns (log: seq<Act>)
    ensures log == Lingering(looks) && forall a | a in log :: a.Linger?
  {
    log := [];
    var pos := 0;
    while pos < |looks|
      invariant pos <= |looks| && Lingering(looks) == log + Lingering(looks[pos..]) && forall a | a in log :: a.Linger?
    {
      ghost var before := log;
      log := log + [Linger(looks[pos])];
      assert looks[pos..][1..] == looks[pos + 1..];
      assert before + ([Linger(looks[pos])] + Lingering(looks[pos + 1..])) == log + Lingering(looks[pos + 1..]);
      if !looks[pos] { return; }
      pos := pos + 1;
    }
  }

  // ------------------------------------------------------------------ what runs have to respect

  /** The children started so far, in order. */
  function Started(log: seq<Act>): seq<Child> {
    if log == [] then [] else
      Started(log[..|log| - 1]) + StartedBy(log[|log| - 1])
  }

  function StartedBy(a: Act): seq<Child> {
    if a.Start? then [a.child] else []
  }

  /** Acts of the protected block: nothing is torn down inside it. */
  ghost predicate InBlock(a: Act) {
    !a.InstallHandlers? && !a.RestoreHandlers? && !a.Term? && !a.Linger? && !a.Kill? && !a.Reap?
  }

  /** The API is launched only right after a ready answer, a live Java and the announcement; only
      outside preflight; only with a command; and never twice. */
  ghost predicate ApiLaunchJustified(log: seq<Act>, preflight: bool, command: seq<string>) {
    forall i | 0 <= i < |log| && log[i] == Start(Api) ::
      && !preflight && command != []
      && i >= 4 && log[i - 3..i] == [Probe(true), Poll(Java, true), Announce]
      && Start(Api) !in log[..i]
  }

  predicate EndsIn(log: seq<Act>, a: Act) {
    log != [] && log[|log| - 1] == a
  }

  /** What the last act of the protected block says about its outcome. */
  ghost predicate Explains(block: seq<Act>, preflight: bool, outcome: Outcome) {
    match outcome
    case Running => true
    case Returned(code) =>
      if code == 0 then
        // an announced preflight, or an interrupt while both children were watched
        (preflight && EndsIn(block, Announce)) || (Start(Api) in block && EndsIn(block, Interrupted))
      else
        // a child was seen dead, or the interrupt came between readiness and launch
        && code == 1 && !preflight
        && ((Start(Api) in block && (EndsIn(block, Poll(Java, false)) || EndsIn(block, Poll(Api, false))))
            || (Start(Api) !in block && Announce in block && EndsIn(block, Interrupted)))
    case Raised(why) =>
      && Start(Api) !in block && why != StopRefused
      && (why == JavaExited ==> EndsIn(block, Poll(Java, false)))
      && (why == NotReady ==> EndsIn(block, Interrupted) || EndsIn(block, TimedOut))
      && (why == ProbeBroken ==> EndsIn(block, Probe(false)))
      && (why == NoCommand || why == ApiNotStarted ==> !preflight && EndsIn(block, Announce))
      && (why == JavaNotStarted ==> block == [])
  }

  // ------------------------------------------------------------------ the protected block

  /** How the wait for readiness goes on from a look: its outcome, whether it was confirmed, the
      signal flag, the next look, and what it did. */
  datatype Wait = Wait(outcome: Outcome, confirmed: bool, interrupted: bool, pos: nat, log: seq<Act>)

  function After(acts: seq<Act>, w: Wait): Wait {
    w.(log := acts + w.log)
  }

  function Await(tape: seq<Look>, pos: nat, signalled: bool): Wait
    requires pos <= |tape|
    decreases |tape| - pos
  {
    if pos == |tape| then Wait(Running, false, signalled, pos, []) else
      var look := tape[pos];
      var interrupted := signalled || look.signal;
      if interrupted then Wait(Raised(NotReady), false, true, pos + 1, [Interrupted])
      else if look.late then Wait(Raised(NotReady), false, false, pos + 1, [TimedOut])
      else if !look.javaUp then Wait(Raised(JavaExited), false, false, pos + 1, [Poll(Java, false)])
      else if look.answer.Broken? then Wait(Raised(ProbeBroken), false, false, pos + 1, [Poll(Java, true), Probe(false)])
      else if look.answer.NotYet? then After([Poll(Java, true), Probe(false)], Await(tape, pos + 1, false))
      else After([Poll(Java, true), Probe(true)], Confirm(tape, pos + 1))
  }

  /** The second look at Java after a ready answer; a signal is noticed, but does not end the wait. */
  function Confirm(tape: seq<Look>, pos: nat): Wait
    requires pos <= |tape|
  {
    if pos == |tape| then Wait(Running, false, false, pos, [])
    else if !tape[pos].javaUp then Wait(Raised(JavaExited), false, tape[pos].signal, pos + 1, [Poll(Java, false)])
    else Wait(Running, true, tape[pos].signal, pos + 1, [Poll(Java, true)])
  }

  lemma AfterTwice(a: seq<Act>, b: seq<Act>, w: Wait)
    ensures After(a, After(b, w)) == After(a + b, w) && After([], w) == w
  {
    assert a + (b + w.log) == (a + b) + w.log && [] + w.log == w.log;
  }

  method AwaitReady(tape: seq<Look>) returns (w: Wait)
    ensures w == Await(tape, 0, false)
  {
    var log, pos, interrupted := [], 0, false;
    AfterTwice([], [], Await(tape, 0, false));
    while true
      invariant pos <= |tape| && !interrupted
      invariant Await(tape, 0, false) == After(log, Await(tape, pos, false))
      decreases |tape| - pos
    {
      if pos == |tape| { return Wait(Running, false, interrupted, pos, log); }
      var look := tape[pos];
      pos, interrupted := pos + 1, interrupted || look.signal;
      if interrupted { return Wait(Raised(NotReady), false, interrupted, pos, log + [Interrupted]); }
      if look.late { return Wait(Raised(NotReady), false, interrupted, pos, log + [TimedOut]); }
      ghost var before := log;
      log := log + [Poll(Java, look.javaUp)];
      if !look.javaUp { return Wait(Raised(JavaExited), false, interrupted, pos, log); }
      log := log + [Probe(look.answer.Ready?)];
      assert log == before + [Poll(Java, true), Probe(look.answer.Ready?)];
      if look.answer.Broken? { return Wait(Raised(ProbeBroken), false, interrupted, pos, log); }
      if look.answer.Ready? {
        AfterTwice(before, [Poll(Java, true), Probe(true)], Confirm(tape, pos));
        if pos == |tape| { return Wait(Running, false, interrupted, pos, log); }
        look := tape[pos];
        pos, interrupted := pos + 1, interrupted || look.signal;
        log := log + [Poll(Java, look.javaUp)];
        return Wait(if look.javaUp then Running else Raised(JavaExited), look.javaUp, interrupted, pos, log);
      }
      AfterTwice(before, [Poll(Java, true), Probe(false)], Await(tape, pos, false));
    }
  }

  predicate GaveUp(log: seq<Act>, why: Failure) {
    || (why == JavaExited && EndsIn(log, Poll(Java, false)))
    || (why == ProbeBroken && EndsIn(log, Probe(false)))
    || (why == NotReady && (EndsIn(log, Interrupted) || EndsIn(log, TimedOut)))
  }

  /** A wait is confirmed only by a ready answer and a live Java; otherwise its last act says why it ended. */
  ghost predicate Meaningful(w: Wait) {
    && (w.confirmed ==> |w.log| >= 2 && w.log[|w.log| - 2..] == [Probe(true), Poll(Java, true)])
    && (!w.confirmed ==> w.outcome == Running || (w.outcome.Raised? && GaveUp(w.log, w.outcome.why)))
    && forall a | a in w.log :: a.Poll? || a.Probe? || a.Interrupted? || a.TimedOut?
  }

  lemma {:induction false} AwaitMeans(tape: seq<Look>, pos: nat)
    requires pos <= |tape|
    ensures Await(tape, pos, false).pos <= |tape| && Meaningful(Await(tape, pos, false))
    decreases |tape| - pos
  {
    if pos < |tape| && !tape[pos].signal && !tape[pos].late && tape[pos].javaUp {
      hide Meaningful;
      if tape[pos].answer.NotYet? {
        AwaitMeans(tape, pos + 1);
        StillMeaningful(Await(tape, pos + 1, false));
      } else if tape[pos].answer.Ready? {
        ConfirmMeans(tape, pos + 1);
      } else {
        BrokenMeans(pos + 1);
      }
    }
  }

  lemma BrokenMeans(pos: nat)
    ensures Meaningful(Wait(Raised(ProbeBroken), false, false, pos, [Poll(Java, true), Probe(false)]))
  {
    assert EndsIn([Poll(Java, true), Probe(false)], Probe(false));
  }

  lemma StillMeaningful(w: Wait)
    requires Meaningful(w)
    ensures Meaningful(After([Poll(Java, true), Probe(false)], w))
  {
    var log := [Poll(Java, true), Probe(false)] + w.log;
    if w.confirmed { assert log[|log| - 2..] == w.log[|w.log| - 2..]; }
  }

  lemma ConfirmMeans(tape: seq<Look>, pos: nat)
    requires pos <= |tape|
    ensures var w := After([Poll(Java, true), Probe(true)], Confirm(tape, pos)); w.pos <= |tape| && Meaningful(w)
  {
    var w := After([Poll(Java, true), Probe(true)], Confirm(tape, pos));
    if w.confirmed { assert w.log[1..] == [Probe(true), Poll(Java, true)]; }
  }

  /** How the watch over both children goes on from a look. */
  function Watch(tape: seq<Look>, pos: nat, interrupted: bool): (Outcome, seq<Act>)
    requires pos <= |tape|
    decreases |tape| - pos
  {
    if interrupted then (Returned(0), [Interrupted])
    else if pos == |tape| then (Running, [])
    else
      var look := tape[pos];
      if !look.javaUp then (Returned(1), [Poll(Java, false)])
      else if !look.apiUp then (Returned(1), [Poll(Java, true), Poll(Api, false)])
      else
        var rest := Watch(tape, pos + 1, look.signal);
        (rest.0, [Poll(Java, true), Poll(Api, true)] + rest.1)
  }

  method Monitor(tape: seq<Look>, start: nat, signalled: bool) returns (outcome: Outcome, log: seq<Act>)
    requires start <= |tape|
    ensures (outcome, log) == Watch(tape, start, signalled)
  {
    var pos, interrupted := start, signalled;
    log := [];
    ghost var whole := Watch(tape, start, signalled);
    assert [] + whole.1 == whole.1;
    while true
      invariant pos <= |tape|
      invariant whole.0 == Watch(tape, pos, interrupted).0 && whole.1 == log + Watch(tape, pos, interrupted).1
      decreases |tape| - pos
    {
      if interrupted { return Returned(0), log + [Interrupted]; }
      if pos == |tape| {
        assert log + [] == log;
        return Running, log;
      }
      var look := tape[pos];
      pos, interrupted := pos + 1, look.signal;
      ghost var before := log;
      log := log + [Poll(Java, look.javaUp)];
      if !look.javaUp { return Returned(1), log; }
      log := log + [Poll(Api, look.apiUp)];
      assert log == before + [Poll(Java, true), Poll(Api, look.apiUp)];
      if !look.apiUp { return Returned(1), log; }
      ghost var rest := Watch(tape, pos, interrupted).1;
      assert before + ([Poll(Java, true), Poll(Api, true)] + rest) == log + rest;
    }
  }

  /** The watch ends as soon as a child is down or a signal has come, and not before; zero only for a
      signal, one only for a child seen dead. */
  lemma {:induction false} WatchEndsExactly(tape: seq<Look>, pos: nat, interrupted: bool)
    requires pos <= |tape|
    ensures var r := Watch(tape, pos, interrupted);
            && (r.0 == Running <==> !interrupted && forall k | pos <= k < |tape| :: tape[k].javaUp && tape[k].apiUp && !tape[k].signal)
            && (r.0 == Running || r.0 == Returned(0) || r.0 == Returned(1))
            && (r.0 == Returned(0) <==> EndsIn(r.1, Interrupted))
            && (r.0 == Returned(1) ==> EndsIn(r.1, Poll(Java, false)) || EndsIn(r.1, Poll(Api, false)))
            && forall a | a in r.1 :: a.Poll? || a.Interrupted?
    decreases |tape| - pos
  {
    if !interrupted && pos < |tape| && tape[pos].javaUp && tape[pos].apiUp {
      WatchEndsExactly(tape, pos + 1, tape[pos].signal);
    }
  }

  /** What holds of the acts once readiness has been confirmed, and until something is launched. */
  ghost predicate Confirmed(log: seq<Act>) {
    && |log| >= 3 && log[|log| - 2..] == [Probe(true), Poll(Java, true)]
    && Started(log) == [Java] && Start(Api) !in log && forall a | a in log :: InBlock(a)
  }

  /** A wait that ended the run: nothing but Java was started, and the last act says why. */
  lemma GivenUp(w: Wait, preflight: bool, command: seq<string>)
    requires Meaningful(w) && !w.confirmed
    ensures var log := [Start(Java)] + w.log;
            && (forall a | a in log :: InBlock(a)) && Started(log) == [Java]
            && ApiLaunchJustified(log, preflight, command) && Explains(log, preflight, w.outcome)
  {
    hide ApiLaunchJustified, Started;
    var log := [Start(Java)] + w.log;
    OneStart(Java);
    StartedSplits([Start(Java)], w.log);
    NothingStarted(w.log);
    NoLaunchIsJustified(log, preflight, command);
    assert w.outcome.Raised? ==> log[|log| - 1] == w.log[|w.log| - 1];
  }

  lemma ConfirmedAfterStart(w: Wait)
    requires Meaningful(w) && w.confirmed
    ensures Confirmed([Start(Java)] + w.log)
  {
    hide Started;
    var log := [Start(Java)] + w.log;
    OneStart(Java);
    StartedSplits([Start(Java)], w.log);
    NothingStarted(w.log);
    assert log[|log| - 2..] == w.log[|w.log| - 2..];
  }

  /** Outcome and acts of the block, given how the wait went. */
  function AfterWait(preflight: bool, command: seq<string>, system: System, tape: seq<Look>, w: Wait): (Outcome, seq<Act>)
    requires w.pos <= |tape|
  {
    var waited := [Start(Java)] + w.log;
    if !w.confirmed then (w.outcome, waited)
    else if !system.announceWorks then (Raised(AnnounceFailed), waited)
    else if preflight then (Returned(0), waited + [Announce])
    else if w.interrupted || system.signalBeforeLaunch then (Returned(1), waited + [Announce] + [Interrupted])
    else if command == [] then (Raised(NoCommand), waited + [Announce])
    else if !system.apiStarts then (Raised(ApiNotStarted), waited + [Announce])
    else
      var watch := Watch(tape, w.pos, system.signalAtLaunch);
      (watch.0, waited + [Announce] + [Start(Api)] + watch.1)
  }

  /** What the block does and how it ends: a run is determined by the system's answers and the tape. */
  function BlockOf(preflight: bool, command: seq<string>, system: System, tape: seq<Look>): (Outcome, seq<Act>) {
    if !system.javaStarts then (Raised(JavaNotStarted), []) else
      AwaitMeans(tape, 0);
      AfterWait(preflight, command, system, tape, Await(tape, 0, false))
  }

  /** The `try` block of `supervise`. */
  method Block(preflight: bool, command: seq<string>, system: System, tape: seq<Look>)
    returns (outcome: Outcome, log: seq<Act>, children: seq<Child>)
    ensures forall a | a in log :: InBlock(a)
    ensures ApiLaunchJustified(log, preflight, command)
    ensures Explains(log, preflight, outcome)
    ensures children == Started(log) && (children == [] || children == [Java] || children == [Java, Api])
    ensures (outcome, log) == BlockOf(preflight, command, system, tape)
  {
    hide ApiLaunchJustified, Await, Watch, Meaningful, Confirmed;
    log, children := [], [];
    NoLaunchIsJustified([], preflight, command);
    if !system.javaStarts { return Raised(JavaNotStarted), log, children; }
    hide Explains, Started, InBlock;
    var w := AwaitReady(tape);
    AwaitMeans(tape, 0);
    log, children := [Start(Java)] + w.log, [Java];
    if !w.confirmed {
      GivenUp(w, preflight, command);
      return w.outcome, log, children;
    }
    ConfirmedAfterStart(w);
    outcome, log, children := AfterReady(preflight, command, system, tape, w, log);
  }

  /** The rest of the `try` block, from the announcement on. */
  method AfterReady(preflight: bool, command: seq<string>, system: System, tape: seq<Look>, w: Wait, before: seq<Act>)
    returns (outcome: Outcome, log: seq<Act>, children: seq<Child>)
    requires w.pos <= |tape| && Confirmed(before) && w.confirmed && before == [Start(Java)] + w.log
    ensures (outcome, log) == AfterWait(preflight, command, system, tape, w)
    ensures forall a | a in log :: InBlock(a)
    ensures ApiLaunchJustified(log, preflight, command)
    ensures Explains(log, preflight, outcome)
    ensures children == Started(log) && (children == [Java] || children == [Java, Api])
  {
    hide ApiLaunchJustified, Started, Watch;
    log, children := before, [Java];
    NoLaunchIsJustified(log, preflight, command);
    if !system.announceWorks { return Raised(AnnounceFailed), log, children; }
    log := log + [Announce];
    StartedSplits(before, [Announce]);
    NothingStarted([Announce]);
    NoLaunchIsJustified(log, preflight, command);
    if preflight { return Returned(0), log, children; }
    if w.interrupted || system.signalBeforeLaunch {
      StartedSplits(log, [Interrupted]);
      NothingStarted([Interrupted]);
      NoLaunchIsJustified(log + [Interrupted], preflight, command);
      return Returned(1), log + [Interrupted], children;
    }
    if command == [] { return Raised(NoCommand), log, children; }
    if !system.apiStarts { return Raised(ApiNotStarted), log, children; }
    var code, watched := Monitor(tape, w.pos, system.signalAtLaunch);
    WatchEndsExactly(tape, w.pos, system.signalAtLaunch);
    Launched(before, watched, code, command);
    return code, log + [Start(Api)] + watched, [Java, Api];
  }

  /** The block of a run that launched the API and watched both children. */
  lemma Launched(before: seq<Act>, watched: seq<Act>, code: Outcome, command: seq<string>)
    requires Confirmed(before) && command != []
    requires forall a | a in watched :: a.Poll? || a.Interrupted?
    requires code == Running || code == Returned(0) || code == Returned(1)
    requires code == Returned(0) ==> EndsIn(watched, Interrupted)
    requires code == Returned(1) ==> EndsIn(watched, Poll(Java, false)) || EndsIn(watched, Poll(Api, false))
    ensures var log := before + [Announce] + [Start(Api)] + watched;
            && (forall a | a in log :: InBlock(a)) && Started(log) == [Java, Api]
            && ApiLaunchJustified(log, false, command) && Explains(log, false, code)
  {
    hide ApiLaunchJustified, Started;
    var ready := before + [Announce];
    OneStart(Api);
    StartedSplits(before, [Announce]);
    NothingStarted([Announce]);
    StartedSplits(ready, [Start(Api)]);
    StartedSplits(ready + [Start(Api)], watched);
    NothingStarted(watched);
    assert ready[|ready| - 3..] == before[|before| - 2..] + [Announce];
    LaunchIsJustified(ready, watched, false, command);
  }

  lemma OneStart(c: Child)
    ensures Started([]) == [] && Started([Start(c)]) == [c]
  {
    assert [Start(c)][..0] == [];
  }

  lemma NoLaunchIsJustified(log: seq<Act>, preflight: bool, command: seq<string>)
    requires Start(Api) !in log
    ensures ApiLaunchJustified(log, preflight, command)
  {
  }

  lemma LaunchIsJustified(before: seq<Act>, after: seq<Act>, preflight: bool, command: seq<string>)
    requires !preflight && command != [] && |before| >= 4
    requires before[|before| - 3..] == [Probe(true), Poll(Java, true), Announce]
    requires Start(Api) !in before && Start(Api) !in after
    ensures ApiLaunchJustified(before + [Start(Api)] + after, preflight, command)
  {
    var log := before + [Start(Api)] + after;
    assert forall i | 0 <= i < |before| :: before[i] != Start(Api);
    assert forall i | 0 <= i < |after| :: after[i] != Start(Api);
    assert forall i | 0 <= i < |log| && log[i] == Start(Api) :: i == |before|;
    assert log[..|before|] == before;
    assert log[|before| - 3..|before|] == before[|before| - 3..];
  }

  lemma {:induction false} StartedSplits(a: seq<Act>, b: seq<Act>)
    ensures Started(a + b) == Started(a) + Started(b)
  {
    hide StartedBy;
    if b == [] {
      assert a + b == a;
    } else {
      var n := |b| - 1;
      StartedSplits(a, b[..n]);
      assert (a + b)[..|a + b| - 1] == a + b[..n];
    }
  }

  lemma {:induction false} NothingStarted(b: seq<Act>)
    requires forall x | x in b :: !x.Start?
    ensures Started(b) == []
  {
    if b != [] {
      var n := |b| - 1;
      assert b[n] in b && forall x | x in b[..n] :: x in b;
      NothingStarted(b[..n]);
    }
  }

  // ------------------------------------------------------------------ supervise

  /** What happens after the block: the children are stopped, and then the handlers go back, unless
      stopping was refused. */
  function Ending(system: System, children: seq<Child>): seq<Act> {
    Attempted(system, TearDown(children, system.lingering)) + if StopsCleanly(system, children) then [RestoreHandlers] else []
  }

  /** `supervise`: nothing happens on a broken contract or a taken port; otherwise the block runs
      between the handlers, and whichever way it ends every started child is torn down first. */
  method Supervise(preflight: bool, command: seq<string>, system: System, tape: seq<Look>)
    returns (outcome: Outcome, log: seq<Act>, block: seq<Act>, ended: Outcome)
    ensures !system.contractHolds || !system.portFree ==> log == [] == block
    ensures !system.contractHolds ==> outcome == Raised(ContractBroken)
    ensures system.contractHolds && !system.portFree ==> outcome == Raised(PortTaken)
    ensures system.contractHolds && system.portFree ==> (ended, block) == BlockOf(preflight, command, system, tape)
    ensures system.contractHolds && system.portFree ==>
              log == [InstallHandlers] + block + if ended == Running then [] else Ending(system, Started(block))
    ensures system.contractHolds && system.portFree ==>
              outcome == if ended == Running || StopsCleanly(system, Started(block)) then ended else Raised(StopRefused)
    ensures forall a | a in block :: InBlock(a)
    ensures ApiLaunchJustified(block, preflight, command)
    ensures system.contractHolds && system.portFree ==> Explains(block, preflight, ended)
  {
    if !system.contractHolds { return Raised(ContractBroken), [], [], Raised(ContractBroken); }
    if !system.portFree { return Raised(PortTaken), [], [], Raised(PortTaken); }
    var children;
    ended, block, children := Block(preflight, command, system, tape);
    outcome, log := ended, [InstallHandlers] + block;
    if ended != Running {
      var stopped, ok := Stop(system, children);
      log := log + stopped;
      if ok { log := log + [RestoreHandlers]; } else { outcome := Raised(StopRefused); }
    }
  }

  lemma {:induction false} KillThenReap(children: seq<Child>, i: nat)
    requires i < |children|
    ensures |KillsAndReaps(children)| == 2 * |children|
    ensures KillsAndReaps(children)[2 * i] == Kill(children[i]) && KillsAndReaps(children)[2 * i + 1] == Reap(children[i])
  {
    var n := |children| - 1;
    if i < n { KillThenReap(children[..n], i); } else if n > 0 { KillThenReap(children[..n], 0); }
  }

  lemma {:induction false} TearDownActs(children: seq<Child>)
    ensures forall a | a in KillsAndReaps(children) :: (a.Kill? || a.Reap?) && a.child in children
  {
    if children != [] { TearDownActs(children[..|children| - 1]); }
  }

  lemma {:induction false} LingeringActs(looks: seq<bool>)
    ensures forall a | a in Lingering(looks) :: a.Linger?
  {
    if looks != [] { LingeringActs(looks[1..]); }
  }

  lemma CleanIsWhole(system: System, children: seq<Child>)
    requires StopsCleanly(system, children)
    ensures Attempted(system, TearDown(children, system.lingering)) == TearDown(children, system.lingering)
  {
    hide KillsAndReaps, Lingering, Attempted;
    TearDownActs(children);
    LingeringActs(system.lingering);
    var all := TearDown(children, system.lingering);
    AttemptedWhole(system, all, []);
    NothingToKill();
    assert all + [] == all;
  }

  /** No orphan: in the log of a run that stops cleanly, each started child is asked to end, then
      killed, then reaped, in that order, after every act of the block and before the handlers go back. */
  lemma EveryChildIsReaped(system: System, block: seq<Act>, log: seq<Act>, child: Child) returns (t: nat, k: nat)
    requires log == [InstallHandlers] + block + Ending(system, Started(block))
    requires child in Started(block) && StopsCleanly(system, Started(block))
    ensures |block| < t < k < |log| - 2
    ensures log[t] == Term(child) && log[k] == Kill(child) && log[k + 1] == Reap(child)
    ensures log[|log| - 1] == RestoreHandlers
  {
    hide Started, KillsAndReaps, Lingering, Attempted, StopsCleanly;
    var children := Started(block);
    CleanIsWhole(system, children);
    var all := TearDown(children, system.lingering);
    var i :| 0 <= i < |children| && children[i] == child;
    KillThenReap(children, i);
    var w := |children| + |Lingering(system.lingering)|;
    t := 1 + |block| + i;
    k := 1 + |block| + w + 2 * i;
    assert log == [InstallHandlers] + block + all + [RestoreHandlers];
    assert log[t] == all[i];
    assert log[k] == all[w + 2 * i] && log[k + 1] == all[w + 2 * i + 1];
  }

  lemma {:induction false} AttemptedSome(system: System, acts: seq<Act>)
    ensures forall a | a in Attempted(system, acts) :: a in acts
  {
    if acts != [] { AttemptedSome(system, acts[1..]); }
  }

  /** Exactly when the promise is kept: the handlers are restored, and every started child is reaped,
      unless a signal to one of them is refused; a refusal leaves the handlers in place. */
  lemma TornDownExactly(system: System, block: seq<Act>, log: seq<Act>)
    requires log == [InstallHandlers] + block + Ending(system, Started(block)) && forall a | a in block :: InBlock(a)
    ensures RestoreHandlers in log <==> StopsCleanly(system, Started(block))
    ensures (forall c | c in Started(block) :: Term(c) in log && Kill(c) in log && Reap(c) in log) && RestoreHandlers in log
       <==> StopsCleanly(system, Started(block))
  {
    hide Started, KillsAndReaps, Lingering, Attempted, StopsCleanly;
    var children := Started(block);
    if StopsCleanly(system, children) {
      forall c | c in children ensures Term(c) in log && Kill(c) in log && Reap(c) in log {
        var t, k := EveryChildIsReaped(system, block, log, c);
      }
      assert log[|log| - 1] == RestoreHandlers;
    } else {
      var all := TearDown(children, system.lingering);
      TearDownActs(children);
      LingeringActs(system.lingering);
      AttemptedSome(system, all);
      assert RestoreHandlers !in all;
    }
  }
}
