/**
 Assistant exchanges on one completed review, as interleaved atomic steps: the request lock, every store
 call, a client that goes away, a store that refuses a call, expiry and restart of the process.
 */
module AssistantHistory {
  import opened Basics

  datatype Role = User | Assistant

  datatype Message = Message(role: Role, content: string)

  const MAX_MESSAGES := 20

  /** An exchange that reached the store. */
  datatype Exchange = Exchange(request: nat, question: string, reply: string)

  datatype Phase =
    | Waiting
    | Locked
    | Admitted(captured: seq<Message>)
    | Streaming(captured: seq<Message>)
    | Closing
    | Over

  datatype Request = Request(message: string, phase: Phase)

  /**
   `history`, `active` and `owner` are the stored keys, `process` the identity of the running process,
   and `log` every exchange saved so far, which no program variable holds.
   */
  datatype State = State(
    alive: bool, history: seq<Message>, active: bool, owner: nat,
    process: nat, lock: Option<nat>, requests: map<nat, Request>, next: nat, log: seq<Exchange>)

  datatype Step =
    | Arrive(message: string)
    | Acquire(r: nat)
    | Refuse(r: nat)
    | Admit(r: nat)
    | Mark(r: nat)
    | MarkFails(r: nat)
    | Save(r: nat, reply: string)
    | GiveUp(r: nat)
    | Close(r: nat)
    | CloseFails(r: nat)
    | Vanish(r: nat)
    | Restart
    | Expire

  /** The last twenty messages. */
  function Tail(messages: seq<Message>): seq<Message> {
    if |messages| <= MAX_MESSAGES then messages else messages[|messages| - MAX_MESSAGES..]
  }

  function Pair(question: string, reply: string): seq<Message> {
    [Message(User, question), Message(Assistant, reply)]
  }

  function Messages(log: seq<Exchange>): seq<Message> {
    if log == [] then []
    else Messages(log[..|log| - 1]) + Pair(log[|log| - 1].question, log[|log| - 1].reply)
  }

  function Move(s: State, r: nat, phase: Phase): State
    requires r in s.requests
  {
    s.(requests := s.requests[r := s.requests[r].(phase := phase)])
  }

  /** Another response of this process is marked as in progress. */
  predicate Busy(s: State) {
    s.active && s.owner == s.process
  }

  predicate Enabled(s: State, step: Step) {
    match step
    case Arrive(_) => true
    case Acquire(r) => s.lock == None && r in s.requests && s.requests[r].phase == Waiting
    case Refuse(r) => r in s.requests && s.requests[r].phase == Locked && (!s.alive || Busy(s))
    case Admit(r) => r in s.requests && s.requests[r].phase == Locked && s.alive && !Busy(s)
    case Mark(r) => r in s.requests && s.requests[r].phase.Admitted? && s.alive
    case MarkFails(r) => r in s.requests && s.requests[r].phase.Admitted?
    case Save(r, reply) => r in s.requests && s.requests[r].phase.Streaming? && s.alive && reply != ""
    case GiveUp(r) => r in s.requests && s.requests[r].phase.Streaming?
    case Close(r) => r in s.requests && s.requests[r].phase == Closing && s.alive
    case CloseFails(r) => r in s.requests && s.requests[r].phase == Closing
    case Vanish(r) => r in s.requests && s.requests[r].phase.Streaming?
    case Restart => true
    case Expire => true
  }

  function After(s: State, step: Step): State
    requires Enabled(s, step)
  {
    match step
    case Arrive(message) => s.(requests := s.requests[s.next := Request(message, Waiting)], next := s.next + 1)
    case Acquire(r) => Move(s, r, Locked).(lock := Some(r))
    case Refuse(r) => Move(s, r, Over).(lock := None)
    case Admit(r) => Move(s, r, Admitted(Tail(s.history)))
    case Mark(r) =>
      Move(s, r, Streaming(s.requests[r].phase.captured)).(lock := None, active := true, owner := s.process)
    case MarkFails(r) => Move(s, r, Over).(lock := None)
    case Save(r, reply) =>
      var question := s.requests[r].message;
      Move(s, r, Closing).(
        history := Tail(s.requests[r].phase.captured + Pair(question, reply)),
        log := s.log + [Exchange(r, question, reply)])
    case GiveUp(r) => Move(s, r, Closing)
    case Close(r) => Move(s, r, Over).(active := false)
    case CloseFails(r) => Move(s, r, Over)
    case Vanish(r) => Move(s, r, Over)
    case Restart => s.(process := s.process + 1, lock := None, requests := map[])
    case Expire => s.(alive := false)
  }

  /** A review just completed has no history, and its flag was never set by this process. */
  predicate Init(s: State) {
    s.alive && s.history == [] && !s.active && s.owner <= s.process
    && s.lock == None && s.requests == map[] && s.log == []
  }

  /** Any interleaving: each step is enabled where it is taken. */
  ghost predicate Run(states: seq<State>, steps: seq<Step>) {
    && |states| == |steps| + 1 && Init(states[0])
    && forall i :: 0 <= i < |steps| ==> Enabled(states[i], steps[i]) && states[i + 1] == After(states[i], steps[i])
  }

  // ---- what every state keeps ----

  predicate InFlight(s: State, r: nat) {
    r in s.requests && (s.requests[r].phase.Streaming? || s.requests[r].phase == Closing)
  }

  predicate HoldsLock(s: State, r: nat) {
    r in s.requests && (s.requests[r].phase == Locked || s.requests[r].phase.Admitted?)
  }

  predicate Reads(s: State, r: nat) {
    r in s.requests && (s.requests[r].phase.Admitted? || s.requests[r].phase.Streaming?)
  }

  /** Users and assistants take turns, a user first, and the last word is the assistant's. */
  predicate Alternating(messages: seq<Message>) {
    |messages| % 2 == 0
    && forall i :: 0 <= i < |messages| ==> messages[i].role == if i % 2 == 0 then User else Assistant
  }

  ghost predicate OneHolder(s: State) {
    forall r: nat :: HoldsLock(s, r) ==> s.lock == Some(r)
  }

  ghost predicate FlightFlagged(s: State) {
    s.owner <= s.process && forall r: nat :: InFlight(s, r) ==> Busy(s)
  }

  ghost predicate OneFlight(s: State) {
    forall r: nat, q: nat :: InFlight(s, r) && InFlight(s, q) ==> r == q
  }

  predicate Admitting(s: State, r: nat) {
    r in s.requests && s.requests[r].phase.Admitted?
  }

  ghost predicate Exclusive(s: State) {
    OneHolder(s) && FlightFlagged(s) && OneFlight(s)
    && forall r: nat :: Admitting(s, r) ==> !Busy(s)
  }

  /** The stored history is the tail of everything saved, and whoever is answering has read exactly it. */
  ghost predicate Faithful(s: State) {
    && s.history == Tail(Messages(s.log))
    && (forall r: nat :: Reads(s, r) ==> s.requests[r].phase.captured == s.history)
  }

  ghost predicate Accounted(s: State) {
    && (forall r: nat :: r in s.requests ==> r < s.next)
    && (forall i :: 0 <= i < |s.log| ==> s.log[i].request < s.next && s.log[i].reply != "")
    && (forall i :: 0 <= i < |s.log| && s.log[i].request in s.requests ==>
          s.requests[s.log[i].request].phase == Closing || s.requests[s.log[i].request].phase == Over)
    && (forall i, j :: 0 <= i < j < |s.log| ==> s.log[i].request != s.log[j].request)
  }

  ghost predicate Inv(s: State) {
    Exclusive(s) && Faithful(s) && Accounted(s)
  }

  lemma TailAgain(a: seq<Message>, b: seq<Message>)
    ensures Tail(Tail(a) + b) == Tail(a + b)
    ensures Tail(Tail(a)) == Tail(a)
  {
  }

  lemma TailAlternates(a: seq<Message>, question: string, reply: string)
    requires Alternating(a)
    ensures Alternating(Tail(a)) && Alternating(a + Pair(question, reply))
  {
  }

  lemma {:induction false} LogAlternates(log: seq<Exchange>)
    ensures |Messages(log)| == 2 * |log| && Alternating(Messages(log))
    ensures forall i :: 0 <= i < |log| ==>
              Messages(log)[2 * i].content == log[i].question && Messages(log)[2 * i + 1].content == log[i].reply
  {
    if log != [] {
      LogAlternates(log[..|log| - 1]);
      TailAlternates(Messages(log[..|log| - 1]), log[|log| - 1].question, log[|log| - 1].reply);
      hide Alternating;
    }
  }

  lemma {:induction false} LogGrows(log: seq<Exchange>, added: Exchange)
    ensures Messages(log + [added]) == Messages(log) + Pair(added.question, added.reply)
  {
    assert (log + [added])[..|log|] == log;
  }

  /** What the other requests are doing. */
  predicate Untouched(s: State, step: Step, t: State, q: nat) {
    (q in t.requests ==> (q in s.requests && t.requests[q] == s.requests[q])
                         || (step.Arrive? && t.requests[q].phase == Waiting))
  }

  predicate Acts(step: Step, q: nat) {
    !step.Arrive? && !step.Restart? && !step.Expire? && step.r == q
  }

  lemma OthersUntouched(s: State, step: Step, q: nat)
    requires Enabled(s, step)
    ensures Acts(step, q) || Untouched(s, step, After(s, step), q)
  {
  }

  /** Who may take a step. */
  lemma Actors(s: State, step: Step)
    requires Enabled(s, step)
    ensures step.Save? || step.GiveUp? || step.Close? || step.CloseFails? || step.Vanish? ==> InFlight(s, step.r)
    ensures step.Mark? ==> Admitting(s, step.r)
    ensures step.Mark? || step.MarkFails? || step.Refuse? ==> HoldsLock(s, step.r)
  {
  }

  lemma FlightKept(s: State, step: Step)
    requires Exclusive(s) && Enabled(s, step)
    ensures FlightFlagged(After(s, step)) && OneFlight(After(s, step))
  {
    var t := After(s, step);
    Actors(s, step);
    forall q: nat | InFlight(t, q)
      ensures InFlight(s, q) || step == Mark(q)
    {
      OthersUntouched(s, step, q);
    }
  }

  lemma ExclusiveKept(s: State, step: Step)
    requires Exclusive(s) && Enabled(s, step)
    ensures Exclusive(After(s, step))
  {
    var t := After(s, step);
    FlightKept(s, step);
    Actors(s, step);
    hide FlightFlagged, OneFlight;
    forall q: nat
      ensures HoldsLock(t, q) ==> HoldsLock(s, q) || step == Acquire(q)
      ensures Admitting(t, q) ==> Admitting(s, q) || step == Admit(q)
      ensures Admitting(t, q) && step.Mark? ==> HoldsLock(s, q) && q != step.r
    {
      OthersUntouched(s, step, q);
    }
  }

  lemma OneReader(s: State, r: nat, q: nat)
    requires Exclusive(s) && r in s.requests && s.requests[r].phase.Streaming? && Reads(s, q)
    ensures q == r
  {
    assert InFlight(s, r);
    assert InFlight(s, q) || Admitting(s, q);
  }

  lemma SaveIsFaithful(s: State, r: nat, reply: string)
    requires Exclusive(s) && Faithful(s) && Enabled(s, Save(r, reply))
    ensures Faithful(After(s, Save(r, reply)))
  {
    var t := After(s, Save(r, reply));
    var question := s.requests[r].message;
    assert Reads(s, r);
    LogGrows(s.log, Exchange(r, question, reply));
    TailAgain(Messages(s.log), Pair(question, reply));
    forall q: nat
      ensures !Reads(t, q)
    {
      if Reads(s, q) {
        OneReader(s, r, q);
      }
    }
  }

  lemma FaithfulKept(s: State, step: Step)
    requires Exclusive(s) && Faithful(s) && Enabled(s, step)
    ensures Faithful(After(s, step))
  {
    if step.Save? {
      SaveIsFaithful(s, step.r, step.reply);
    } else {
      var t := After(s, step);
      TailAgain(Messages(s.log), []);
      hide Messages, Tail;
      forall q: nat | Reads(t, q)
        ensures t.requests[q].phase.captured == t.history
      {
        OthersUntouched(s, step, q);
        assert Reads(s, q) || step == Admit(q);
      }
    }
  }

  lemma AccountedKept(s: State, step: Step)
    requires Accounted(s) && Enabled(s, step)
    ensures Accounted(After(s, step))
  {
  }

  lemma InvKept(s: State, step: Step)
    requires Inv(s) && Enabled(s, step)
    ensures Inv(After(s, step))
  {
    ExclusiveKept(s, step);
    FaithfulKept(s, step);
    AccountedKept(s, step);
  }

  lemma {:induction false} RunKeeps(states: seq<State>, steps: seq<Step>, k: nat)
    requires Run(states, steps) && k <= |steps|
    ensures Inv(states[k])
  {
    if k > 0 {
      RunKeeps(states, steps, k - 1);
      InvKept(states[k - 1], steps[k - 1]);
    }
  }

  /**
   In every run: at most one exchange is in flight, the stored history is the last twenty messages of the
   exchanges saved so far, in the order they were saved and each once, it alternates from user to assistant, and no
   reply is empty.
   */
  lemma ExchangesAreSerial(states: seq<State>, steps: seq<Step>, k: nat)
    requires Run(states, steps) && k <= |steps|
    ensures forall r: nat, q: nat :: InFlight(states[k], r) && InFlight(states[k], q) ==> r == q
    ensures states[k].history == Tail(Messages(states[k].log))
    ensures Alternating(states[k].history) && |states[k].history| <= MAX_MESSAGES
    ensures forall i, j :: 0 <= i < j < |states[k].log| ==> states[k].log[i].request != states[k].log[j].request
    ensures forall i :: 0 <= i < |states[k].log| ==> states[k].log[i].reply != ""
  {
    RunKeeps(states, steps, k);
    LogAlternates(states[k].log);
    TailAlternates(Messages(states[k].log), "", "");
  }

  /** A save adds exactly its own exchange, to the log and to the stored history; no other step adds or drops one. */
  lemma NothingLost(s: State, step: Step)
    requires Inv(s) && Enabled(s, step)
    ensures s.log <= After(s, step).log
    ensures var added := After(s, step).log[|s.log|..];
            if step.Save? then added == [Exchange(step.r, s.requests[step.r].message, step.reply)]
                               && After(s, step).history == Tail(s.history + Pair(added[0].question, added[0].reply))
            else added == [] && After(s, step).history == s.history
  {
    if step.Save? {
      assert Reads(s, step.r);
    }
  }

  /** The questions and replies of the run's saves, in order. */
  ghost function SavedIn(states: seq<State>, steps: seq<Step>, k: nat): seq<Exchange>
    requires Run(states, steps) && k <= |steps|
  {
    if k == 0 then []
    else
      var step := steps[k - 1];
      SavedIn(states, steps, k - 1)
      + (if step.Save? then [Exchange(step.r, states[k - 1].requests[step.r].message, step.reply)] else [])
  }

  /** No update is lost: at any moment of a run the stored history is the tail of exactly what the run saved. */
  lemma {:induction false} EverySaveCounts(states: seq<State>, steps: seq<Step>, k: nat)
    requires Run(states, steps) && k <= |steps|
    ensures states[k].log == SavedIn(states, steps, k)
    ensures states[k].history == Tail(Messages(SavedIn(states, steps, k)))
  {
    ExchangesAreSerial(states, steps, k);
    if k > 0 {
      var s, t := states[k - 1], states[k];
      EverySaveCounts(states, steps, k - 1);
      RunKeeps(states, steps, k - 1);
      hide Tail, Messages, Inv;
      NothingLost(s, steps[k - 1]);
      assert t.log == s.log + t.log[|s.log|..];
    }
  }

  /**
   The stored history word for word: its `i`-th exchange from the end is the question, as the user's, and the reply,
   as the assistant's, of the `i`-th save from the end, for the last ten saves and no others.
   */
  lemma HistoryIs(states: seq<State>, steps: seq<Step>, k: nat, i: nat)
    requires Run(states, steps) && k <= |steps|
    requires i < |SavedIn(states, steps, k)| && i < 10
    ensures var history, saved := states[k].history, SavedIn(states, steps, k);
            && |history| == (if |saved| <= 10 then 2 * |saved| else 20)
            && history[|history| - 2 * i - 2] == Message(User, saved[|saved| - 1 - i].question)
            && history[|history| - 2 * i - 1] == Message(Assistant, saved[|saved| - 1 - i].reply)
  {
    EverySaveCounts(states, steps, k);
    TailIs(SavedIn(states, steps, k), i);
    hide Run, SavedIn, Messages, Tail;
  }

  lemma TailIs(log: seq<Exchange>, i: nat)
    requires i < |log| && i < MAX_MESSAGES / 2
    ensures var tail := Tail(Messages(log));
            && |tail| == (if |log| <= MAX_MESSAGES / 2 then 2 * |log| else MAX_MESSAGES)
            && tail[|tail| - 2 * i - 2] == Message(User, log[|log| - 1 - i].question)
            && tail[|tail| - 2 * i - 1] == Message(Assistant, log[|log| - 1 - i].reply)
  {
    LogAlternates(log);
    hide Messages;
    var all, j := Messages(log), |log| - 1 - i;
    assert all[2 * j].role == User && all[2 * j + 1].role == Assistant;
    assert all[2 * j].content == log[j].question && all[2 * j + 1].content == log[j].reply;
  }

  // ---- a flag left behind ----

  /** The flag is set by this process and nobody is left to clear it. */
  ghost predicate Stuck(s: State) {
    Busy(s) && forall r: nat :: !InFlight(s, r)
  }

  /** A clearing update that fails, or a client gone before the reply begins. */
  predicate Leaves(step: Step) {
    step.CloseFails? || step.Vanish?
  }

  /** Until the process restarts a stuck flag stays, and every request is refused. */
  lemma StuckStays(s: State, step: Step)
    requires Inv(s) && Stuck(s) && Enabled(s, step) && step != Restart
    ensures Stuck(After(s, step)) && !step.Admit? && After(s, step).log == s.log
  {
    var t := After(s, step);
    Actors(s, step);
    forall r: nat
      ensures !InFlight(t, r)
    {
      OthersUntouched(s, step, r);
      assert !InFlight(s, r);
    }
  }

  lemma StuckNow(s: State, step: Step)
    requires Inv(s) && Enabled(s, step) && Leaves(step)
    ensures Stuck(After(s, step))
  {
    Actors(s, step);
    forall r: nat
      ensures !InFlight(After(s, step), r)
    {
      OthersUntouched(s, step, r);
      assert InFlight(s, r) ==> r == step.r;
    }
  }

  lemma NotStuckYet(s: State, step: Step)
    requires Inv(s) && Enabled(s, step) && !Stuck(s) && !Leaves(step)
    ensures !Stuck(After(s, step))
  {
    var t := After(s, step);
    if Busy(s) && Busy(t) {
      var r: nat :| InFlight(s, r);
      OthersStay(s, step, r);
      assert InFlight(t, r);
    } else if step.Mark? {
      assert InFlight(t, step.r);
    }
  }

  lemma OthersStay(s: State, step: Step, q: nat)
    requires Enabled(s, step) && step != Restart && q in s.requests && s.requests[q].phase != Waiting && q < s.next
    ensures q in After(s, step).requests && (Acts(step, q) || After(s, step).requests[q] == s.requests[q])
  {
  }

  /** A step leaves the flag stuck exactly when it strands it or finds it stranded, and is no restart. */
  lemma LeftBehind(s: State, step: Step)
    requires Inv(s) && Enabled(s, step)
    ensures Stuck(After(s, step)) <==> step != Restart && (Stuck(s) || Leaves(step))
  {
    if step == Restart {
      assert !Busy(After(s, step));
    } else if Leaves(step) {
      StuckNow(s, step);
    } else if Stuck(s) {
      StuckStays(s, step);
    } else {
      NotStuckYet(s, step);
    }
  }

  /** Some step among the first `k` stranded the flag, and no restart came after it. */
  predicate LeftSince(steps: seq<Step>, k: nat)
    requires k <= |steps|
  {
    exists i :: 0 <= i < k && Leaves(steps[i]) && forall j :: i < j < k ==> steps[j] != Restart
  }

  lemma LeftSinceNext(steps: seq<Step>, k: nat)
    requires k < |steps|
    ensures LeftSince(steps, k + 1) <==> steps[k] != Restart && (LeftSince(steps, k) || Leaves(steps[k]))
  {
    hide Leaves;
    if LeftSince(steps, k + 1) {
      var i :| 0 <= i < k + 1 && Leaves(steps[i]) && forall j :: i < j < k + 1 ==> steps[j] != Restart;
      assert i < k ==> LeftSince(steps, k);
      assert i == k ==> steps[k] != Restart by { RestartLeavesNothing(); }
    }
  }

  lemma RestartLeavesNothing()
    ensures !Leaves(Restart)
  {
  }

  /** In a run, the flag is stuck exactly when some step since the last restart stranded it. */
  lemma {:induction false} StuckIff(states: seq<State>, steps: seq<Step>, k: nat)
    requires Run(states, steps) && k <= |steps|
    ensures Stuck(states[k]) <==> LeftSince(steps, k)
  {
    hide Inv, Leaves, Enabled, After;
    if k == 0 {
      assert !Busy(states[0]) && !LeftSince(steps, 0);
    } else {
      hide LeftSince;
      StuckIff(states, steps, k - 1);
      RunKeeps(states, steps, k - 1);
      hide Stuck, Init;
      LeftBehind(states[k - 1], steps[k - 1]);
      LeftSinceNext(steps, k - 1);
    }
  }

  /** It does happen: a reply breaks off and then the clearing update fails. */
  lemma StuckIsReached(start: State, message: string) returns (states: seq<State>, steps: seq<Step>)
    requires Init(start)
    ensures Run(states, steps) && states[0] == start && Stuck(states[|steps|])
  {
    var r := start.next;
    steps := [Arrive(message), Acquire(r), Admit(r), Mark(r), GiveUp(r), CloseFails(r)];
    var s1 := After(start, Arrive(message));
    var s2 := After(s1, Acquire(r));
    var s3 := After(s2, Admit(r));
    var s4 := After(s3, Mark(r));
    var s5 := After(s4, GiveUp(r));
    states := [start, s1, s2, s3, s4, s5, After(s5, CloseFails(r))];
    assert Leaves(steps[5]);
    StuckIff(states, steps, 6);
  }

  /** After a restart a live review's next request is admitted, however the flag stood. */
  lemma RestartFrees(s: State, message: string)
    requires Inv(s) && s.alive
    ensures var r, arrived := s.next, After(After(s, Restart), Arrive(message));
            Enabled(arrived, Acquire(r)) && Enabled(After(arrived, Acquire(r)), Admit(r))
  {
  }

  // ---- what a request under the lock comes to ----

  /** It is admitted exactly when the review is live and this process has no response in progress, and else refused. */
  lemma OneDecision(s: State, r: nat)
    requires r in s.requests && s.requests[r].phase == Locked
    ensures Enabled(s, Admit(r)) <==> s.alive && !(s.active && s.owner == s.process)
    ensures Enabled(s, Refuse(r)) <==> !Enabled(s, Admit(r))
    ensures Enabled(s, Refuse(r)) ==> After(s, Refuse(r)).history == s.history && After(s, Refuse(r)).lock == None
  {
  }

  /** Once the review has expired nothing in it changes any more. */
  lemma ExpiredIsFrozen(s: State, step: Step)
    requires !s.alive && Enabled(s, step)
    ensures var t := After(s, step);
            !t.alive && t.history == s.history && t.log == s.log && t.active == s.active && t.owner == s.owner
  {
  }
}
