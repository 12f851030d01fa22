/** Which answers of the system and which looks at the world make the supervisor launch the API, and how
    every other run of its protected block ends. */
module SupervisorContract {
  import opened Supervisor

  // ------------------------------------------------------------------ the wait

  /** Before the k-th look, Java was up and not ready yet, no signal came and there was time. */
  ghost predicate Waiting(tape: seq<Look>, k: nat) {
    k <= |tape| && forall j | 0 <= j < k :: !tape[j].signal && !tape[j].late && tape[j].javaUp && tape[j].answer.NotYet?
  }

  /** The k-th look, with time left, finds Java up. */
  ghost predicate Asks(tape: seq<Look>, k: nat) {
    k < |tape| && Waiting(tape, k) && !tape[k].signal && !tape[k].late && tape[k].javaUp
  }

  /** The k-th look finds Java ready, and the next one finds it up. */
  ghost predicate ReadyAt(tape: seq<Look>, k: nat) {
    Asks(tape, k) && tape[k].answer.Ready? && k + 1 < |tape| && tape[k + 1].javaUp
  }

  ghost predicate TooLateAt(tape: seq<Look>, k: nat) {
    k < |tape| && Waiting(tape, k) && (tape[k].signal || tape[k].late)
  }

  /** Java is found dead, at a look while waiting or at the one after its ready answer. */
  ghost predicate DeadAt(tape: seq<Look>, k: nat) {
    || (k < |tape| && Waiting(tape, k) && !tape[k].signal && !tape[k].late && !tape[k].javaUp)
    || (Asks(tape, k) && tape[k].answer.Ready? && k + 1 < |tape| && !tape[k + 1].javaUp)
  }

  ghost predicate BrokenAt(tape: seq<Look>, k: nat) {
    Asks(tape, k) && tape[k].answer.Broken?
  }

  /** How the wait ends when it comes to the k-th look. */
  lemma {:induction false} AwaitFrom(tape: seq<Look>, k: nat)
    requires Waiting(tape, k)
    ensures var w := Await(tape, k, false);
            && (w.confirmed <==> exists n :: k <= n && ReadyAt(tape, n))
            && (forall n | k <= n && ReadyAt(tape, n) :: w.pos == n + 2 && w.interrupted == tape[n + 1].signal)
            && (w.outcome == Raised(NotReady) <==> exists n :: k <= n && TooLateAt(tape, n))
            && (w.outcome == Raised(JavaExited) <==> exists n :: k <= n && DeadAt(tape, n))
            && (w.outcome == Raised(ProbeBroken) <==> exists n :: k <= n && BrokenAt(tape, n))
            && (w.outcome == Running || w.outcome == Raised(NotReady) || w.outcome == Raised(JavaExited) || w.outcome == Raised(ProbeBroken))
            && (w.confirmed ==> w.outcome == Running)
    decreases |tape| - k
  {
    if k < |tape| && !tape[k].signal && !tape[k].late && tape[k].javaUp && tape[k].answer.NotYet? {
      AwaitFrom(tape, k + 1);
      NotHere(tape, k);
    } else {
      OnlyHere(tape, k);
      Here(tape, k);
      hide ReadyAt, TooLateAt, DeadAt, BrokenAt, Await;
    }
  }

  /** A look that keeps the wait going ends nothing. */
  lemma NotHere(tape: seq<Look>, k: nat)
    requires k < |tape| && !tape[k].signal && !tape[k].late && tape[k].javaUp && tape[k].answer.NotYet?
    ensures !ReadyAt(tape, k) && !TooLateAt(tape, k) && !DeadAt(tape, k) && !BrokenAt(tape, k)
  {
  }

  /** A look that does not is the last one. */
  lemma OnlyHere(tape: seq<Look>, k: nat)
    requires Waiting(tape, k)
    requires k < |tape| ==> tape[k].signal || tape[k].late || !tape[k].javaUp || !tape[k].answer.NotYet?
    ensures forall n | k < n :: !Waiting(tape, n)
    ensures forall n | k < n :: !ReadyAt(tape, n) && !TooLateAt(tape, n) && !DeadAt(tape, n) && !BrokenAt(tape, n)
  {
    forall n | k < n ensures !Waiting(tape, n) {}
  }

  lemma Here(tape: seq<Look>, k: nat)
    requires Waiting(tape, k)
    requires k < |tape| ==> tape[k].signal || tape[k].late || !tape[k].javaUp || !tape[k].answer.NotYet?
    ensures var w := Await(tape, k, false);
            && (w.confirmed <==> ReadyAt(tape, k)) && (ReadyAt(tape, k) ==> w.pos == k + 2 && w.interrupted == tape[k + 1].signal)
            && (w.outcome == Raised(NotReady) <==> TooLateAt(tape, k)) && (w.outcome == Raised(JavaExited) <==> DeadAt(tape, k))
            && (w.outcome == Raised(ProbeBroken) <==> BrokenAt(tape, k))
            && (w.outcome == Running || w.outcome == Raised(NotReady) || w.outcome == Raised(JavaExited) || w.outcome == Raised(ProbeBroken))
            && (w.confirmed ==> w.outcome == Running)
  {
  }

  // ------------------------------------------------------------------ the watch

  /** Up to the look j, both children were up and no signal came. */
  ghost predicate Calm(tape: seq<Look>, start: nat, j: nat) {
    start <= j <= |tape| && forall i | start <= i < j :: tape[i].javaUp && tape[i].apiUp && !tape[i].signal
  }

  /** The watch ends well on the first signal and badly on the first dead child. */
  lemma {:induction false} WatchExactly(tape: seq<Look>, start: nat, signalled: bool)
    requires start <= |tape|
    ensures var o := Watch(tape, start, signalled).0;
            && (o == Returned(0) <==> signalled || exists j: nat :: Calm(tape, start, j) && j < |tape| && tape[j].javaUp && tape[j].apiUp && tape[j].signal)
            && (o == Returned(1) <==> !signalled && exists j: nat :: Calm(tape, start, j) && j < |tape| && !(tape[j].javaUp && tape[j].apiUp))
            && (o == Running <==> !signalled && Calm(tape, start, |tape|))
    decreases |tape| - start
  {
    if !signalled && start < |tape| {
      assert Calm(tape, start, start);
      if tape[start].javaUp && tape[start].apiUp {
        WatchExactly(tape, start + 1, tape[start].signal);
        if !tape[start].signal {
          forall j | start < j ensures Calm(tape, start, j) <==> Calm(tape, start + 1, j) {}
        } else {
          forall j | start < j ensures !Calm(tape, start, j) {}
        }
      } else {
        forall j | start < j ensures !Calm(tape, start, j) {}
      }
    }
  }

  // ------------------------------------------------------------------ the block

  /** Java starts, is found ready at the n-th look, and the readiness is announced. */
  ghost predicate AnnouncedAt(system: System, tape: seq<Look>, n: nat) {
    system.javaStarts && ReadyAt(tape, n) && system.announceWorks
  }

  /** The run goes on to the API: no preflight, and no signal since the ready answer. */
  ghost predicate GoesOnAt(preflight: bool, system: System, tape: seq<Look>, n: nat) {
    AnnouncedAt(system, tape, n) && !preflight && !tape[n + 1].signal && !system.signalBeforeLaunch
  }

  /** The API is launched. */
  ghost predicate LaunchesAt(preflight: bool, command: seq<string>, system: System, tape: seq<Look>, n: nat) {
    GoesOnAt(preflight, system, tape, n) && command != [] && system.apiStarts
  }

  /** How the wait ends, and that it ends once. */
  lemma WaitExactly(tape: seq<Look>)
    ensures var w := Await(tape, 0, false);
            && w.pos <= |tape| && Meaningful(w)
            && (w.confirmed <==> exists n: nat :: ReadyAt(tape, n))
            && (forall n: nat | ReadyAt(tape, n) :: w.pos == n + 2 && w.interrupted == tape[n + 1].signal)
            && (w.outcome == Raised(NotReady) <==> exists n: nat :: TooLateAt(tape, n))
            && (w.outcome == Raised(JavaExited) <==> exists n: nat :: DeadAt(tape, n))
            && (w.outcome == Raised(ProbeBroken) <==> exists n: nat :: BrokenAt(tape, n))
            && (w.outcome == Running || w.outcome == Raised(NotReady) || w.outcome == Raised(JavaExited) || w.outcome == Raised(ProbeBroken))
            && (w.confirmed ==> w.outcome == Running)
  {
    hide ReadyAt, TooLateAt, DeadAt, BrokenAt, Await, Meaningful;
    AwaitFrom(tape, 0);
    AwaitMeans(tape, 0);
  }

  lemma InRange(tape: seq<Look>, n: nat)
    requires ReadyAt(tape, n)
    ensures n + 1 < |tape|
  {
  }

  /** There is one look at which Java is found ready, and the run goes on from there. */
  lemma AtOnce(preflight: bool, command: seq<string>, system: System, tape: seq<Look>, n: nat)
    requires ReadyAt(tape, n) && n + 1 < |tape|
    ensures forall k: nat :: ReadyAt(tape, k) ==> k == n
    ensures forall k: nat :: AnnouncedAt(system, tape, k) <==> k == n && system.javaStarts && system.announceWorks
    ensures forall k: nat :: GoesOnAt(preflight, system, tape, k) <==>
              k == n && system.javaStarts && system.announceWorks && !preflight && !tape[n + 1].signal && !system.signalBeforeLaunch
    ensures forall k: nat :: LaunchesAt(preflight, command, system, tape, k) <==>
              k == n && GoesOnAt(preflight, system, tape, n) && command != [] && system.apiStarts
    ensures (exists k: nat :: GoesOnAt(preflight, system, tape, k)) <==> GoesOnAt(preflight, system, tape, n)
    ensures (exists k: nat :: LaunchesAt(preflight, command, system, tape, k)) <==> LaunchesAt(preflight, command, system, tape, n)
    ensures (exists k: nat :: AnnouncedAt(system, tape, k)) <==> AnnouncedAt(system, tape, n)
  {
    hide ReadyAt;
    WaitExactly(tape);
  }

  lemma NotAtAll(preflight: bool, command: seq<string>, system: System, tape: seq<Look>)
    requires forall n: nat :: !ReadyAt(tape, n)
    ensures forall n: nat :: !AnnouncedAt(system, tape, n) && !GoesOnAt(preflight, system, tape, n) && !LaunchesAt(preflight, command, system, tape, n)
  {
    hide ReadyAt;
  }

  /** The API is launched exactly when Java starts and becomes ready in time, the announcement works, it is
      no preflight, no signal has come, there is a command, and the system can start it. */
  lemma LaunchExactly(preflight: bool, command: seq<string>, system: System, tape: seq<Look>)
    ensures Start(Api) in BlockOf(preflight, command, system, tape).1 <==> exists n: nat :: LaunchesAt(preflight, command, system, tape, n)
  {
    hide ReadyAt, Await, Watch, AnnouncedAt, GoesOnAt, LaunchesAt;
    WaitExactly(tape);
    var w := Await(tape, 0, false);
    assert Start(Api) !in [Start(Java)] + w.log;
    if w.confirmed {
      var n: nat :| ReadyAt(tape, n);
      InRange(tape, n);
      AtOnce(preflight, command, system, tape, n);
      WatchEndsExactly(tape, w.pos, system.signalAtLaunch);
    } else {
      NotAtAll(preflight, command, system, tape);
    }
  }

  /** How a run of the block ends: each failure exactly on its cause. */
  lemma FailuresExactly(preflight: bool, command: seq<string>, system: System, tape: seq<Look>)
    ensures var o := BlockOf(preflight, command, system, tape).0;
            && (o == Raised(JavaNotStarted) <==> !system.javaStarts)
            && (o == Raised(NotReady) <==> system.javaStarts && exists n: nat :: TooLateAt(tape, n))
            && (o == Raised(JavaExited) <==> system.javaStarts && exists n: nat :: DeadAt(tape, n))
            && (o == Raised(ProbeBroken) <==> system.javaStarts && exists n: nat :: BrokenAt(tape, n))
            && (o == Raised(AnnounceFailed) <==> system.javaStarts && !system.announceWorks && exists n: nat :: ReadyAt(tape, n))
            && (o == Raised(NoCommand) <==> command == [] && exists n: nat :: GoesOnAt(preflight, system, tape, n))
            && (o == Raised(ApiNotStarted) <==> command != [] && !system.apiStarts && exists n: nat :: GoesOnAt(preflight, system, tape, n))
  {
    hide ReadyAt, TooLateAt, DeadAt, BrokenAt, Await, Watch, Meaningful, AnnouncedAt, GoesOnAt, LaunchesAt;
    WaitExactly(tape);
    var w := Await(tape, 0, false);
    if w.confirmed {
      var n: nat :| ReadyAt(tape, n);
      InRange(tape, n);
      AtOnce(preflight, command, system, tape, n);
      WatchEndsExactly(tape, w.pos, system.signalAtLaunch);
    } else {
      NotAtAll(preflight, command, system, tape);
    }
  }

  /** A signal arrives at the launch, or later while both children are up. */
  ghost predicate WatchesWell(system: System, tape: seq<Look>, start: nat) {
    system.signalAtLaunch || exists j: nat :: Calm(tape, start, j) && j < |tape| && tape[j].javaUp && tape[j].apiUp && tape[j].signal
  }

  /** A child is found dead before any signal. */
  ghost predicate WatchesBadly(system: System, tape: seq<Look>, start: nat) {
    !system.signalAtLaunch && exists j: nat :: Calm(tape, start, j) && j < |tape| && !(tape[j].javaUp && tape[j].apiUp)
  }

  /** And how it ends otherwise: zero for an announced preflight, or for a signal while both children are up;
      one for a signal before the launch, or for a child found dead after it. */
  lemma CodesExactly(preflight: bool, command: seq<string>, system: System, tape: seq<Look>)
    ensures var o := BlockOf(preflight, command, system, tape).0;
            && (o == Returned(0) <==>
                  || (preflight && exists n: nat :: AnnouncedAt(system, tape, n))
                  || exists n: nat :: LaunchesAt(preflight, command, system, tape, n) && WatchesWell(system, tape, n + 2))
            && (o == Returned(1) <==>
                  || (!preflight && exists n: nat :: AnnouncedAt(system, tape, n) && (tape[n + 1].signal || system.signalBeforeLaunch))
                  || exists n: nat :: LaunchesAt(preflight, command, system, tape, n) && WatchesBadly(system, tape, n + 2))
  {
    hide ReadyAt, TooLateAt, DeadAt, BrokenAt, Await, Watch, WatchesWell, WatchesBadly, Meaningful, AnnouncedAt, GoesOnAt, LaunchesAt;
    WaitExactly(tape);
    var w := Await(tape, 0, false);
    if w.confirmed {
      var n: nat :| ReadyAt(tape, n);
      InRange(tape, n);
      AtOnce(preflight, command, system, tape, n);
      WatchIs(system, tape, n + 2);
    } else {
      NotAtAll(preflight, command, system, tape);
    }
  }

  lemma WatchIs(system: System, tape: seq<Look>, start: nat)
    requires start <= |tape|
    ensures Watch(tape, start, system.signalAtLaunch).0 == Returned(0) <==> WatchesWell(system, tape, start)
    ensures Watch(tape, start, system.signalAtLaunch).0 == Returned(1) <==> WatchesBadly(system, tape, start)
  {
    hide Watch, Calm;
    WatchExactly(tape, start, system.signalAtLaunch);
  }
}
