/** Tailing a run's step log over a resumable stream (app/routers/chat.py, lines 251-340),
    and the log itself (agentcore/orchestrator/engine.py, lines 1524-1558). */
module StreamCursor {
  import opened Text

  datatype Step = Step(number: nat, text: string)

  datatype Status = Queued | Running | Completed | AwaitingConfirmation | Failed | Cancelled | Expired

  predicate Terminal(s: Status) {
    s != Queued && s != Running
  }

  // ---- the log --------------------------------------------------------------

  predicate Ascending(log: seq<Step>) {
    && (forall i :: 0 <= i < |log| ==> log[i].number > 0)
    && (forall i, j :: 0 <= i < j < |log| ==> log[i].number < log[j].number)
  }

  predicate Gapless(log: seq<Step>) {
    forall i :: 0 <= i < |log| ==> log[i].number == i + 1
  }

  /** What the run does to its log: a step whose insert succeeds or fails, or a new status. */
  datatype Write = Append(text: string, inserted: bool) | SetStatus(status: Status)

  datatype Log = Log(counter: nat, rows: seq<Step>, status: Status)

  /** The counter moves before the insert, so an insert that fails leaves a number unused. */
  function Wrote(log: Log, w: Write): Log {
    match w
    case Append(text, inserted) =>
      var n := log.counter + 1;
      log.(counter := n, rows := log.rows + (if inserted then [Step(n, text)] else []))
    case SetStatus(status) => log.(status := status)
  }

  function LogAfter(writes: seq<Write>): Log {
    if writes == [] then Log(0, [], Queued) else Wrote(LogAfter(writes[..|writes| - 1]), writes[|writes| - 1])
  }

  /** The run's counter, its rows and its status, updated in place. */
  class RunLog {
    var counter: nat
    var rows: seq<Step>
    var status: Status
    ghost var writes: seq<Write>

    ghost predicate Valid()
      reads this
    {
      Log(counter, rows, status) == LogAfter(writes)
    }

    constructor ()
      ensures Valid() && writes == []
    {
      counter, rows, status, writes := 0, [], Queued, [];
    }

    method Append(text: string, inserted: bool)
      requires Valid()
      modifies this
      ensures Valid() && writes == old(writes) + [Write.Append(text, inserted)]
      ensures rows == old(rows) + (if inserted then [Step(old(counter) + 1, text)] else [])
      ensures counter == old(counter) + 1 && status == old(status)
    {
      hide LogAfter;
      Appended(writes, Write.Append(text, inserted));
      counter := counter + 1;
      if inserted {
        rows := rows + [Step(counter, text)];
      }
      writes := writes + [Write.Append(text, inserted)];
    }

    method Finish(s: Status)
      requires Valid()
      modifies this
      ensures Valid() && writes == old(writes) + [SetStatus(s)]
      ensures status == s && rows == old(rows) && counter == old(counter)
    {
      hide LogAfter;
      Appended(writes, SetStatus(s));
      status := s;
      writes := writes + [SetStatus(s)];
    }
  }

  lemma {:induction false} Appended(writes: seq<Write>, w: Write)
    ensures LogAfter(writes + [w]) == Wrote(LogAfter(writes), w)
  {
    assert (writes + [w])[..|writes|] == writes;
  }

  predicate AllInserted(writes: seq<Write>) {
    forall i :: 0 <= i < |writes| && writes[i].Append? ==> writes[i].inserted
  }

  /** Rows are numbered upwards; there are as many as the counter says exactly when no
      insert has failed. */
  lemma {:induction false} LogShape(writes: seq<Write>)
    ensures var log := LogAfter(writes);
            && Ascending(log.rows) && |log.rows| <= log.counter
            && (forall i :: 0 <= i < |log.rows| ==> log.rows[i].number <= log.counter)
            && (|log.rows| == log.counter <==> AllInserted(writes))
  {
    if writes != [] {
      var n := |writes| - 1;
      LogShape(writes[..n]);
      assert writes == writes[..n] + [writes[n]];
      AllInsertedSnoc(writes[..n], writes[n]);
      hide AllInserted;
    }
  }

  lemma {:induction false} AllInsertedSnoc(writes: seq<Write>, w: Write)
    ensures AllInserted(writes + [w]) <==> AllInserted(writes) && (w.Append? ==> w.inserted)
  {
    assert forall i :: 0 <= i < |writes| ==> (writes + [w])[i] == writes[i];
    assert (writes + [w])[|writes|] == w;
  }

  /** No insert succeeds once one has failed. */
  predicate FailuresLast(writes: seq<Write>) {
    forall i, j :: 0 <= i < j < |writes| && writes[i].Append? && writes[j].Append? && writes[j].inserted ==>
      writes[i].inserted
  }

  lemma {:induction false} FailuresLastSnoc(writes: seq<Write>, w: Write)
    ensures FailuresLast(writes + [w]) <==>
              FailuresLast(writes) && (w.Append? && w.inserted ==> AllInserted(writes))
  {
    var all := writes + [w];
    assert forall i :: 0 <= i < |writes| ==> all[i] == writes[i];
    assert all[|writes|] == w;
    if FailuresLast(all) && w.Append? && w.inserted {
      forall i | 0 <= i < |writes| && writes[i].Append? ensures writes[i].inserted { assert all[i] == writes[i]; }
    }
  }

  /** The step sequence has no gap exactly when no insert succeeded after a failed one. */
  lemma {:induction false} GaplessIff(writes: seq<Write>)
    ensures Gapless(LogAfter(writes).rows) <==> FailuresLast(writes)
  {
    if writes != [] {
      var n := |writes| - 1;
      var before := LogAfter(writes[..n]);
      GaplessIff(writes[..n]);
      LogShape(writes[..n]);
      assert writes == writes[..n] + [writes[n]];
      FailuresLastSnoc(writes[..n], writes[n]);
      hide FailuresLast, AllInserted, Ascending, Gapless;
      assert before.rows + [] == before.rows;
      if writes[n].Append? && writes[n].inserted { GaplessSnoc(before.rows, Step(before.counter + 1, writes[n].text)); }
    }
  }

  lemma {:induction false} GaplessSnoc(rows: seq<Step>, step: Step)
    ensures Gapless(rows + [step]) <==> Gapless(rows) && step.number == |rows| + 1
  {
    assert forall i :: 0 <= i < |rows| ==> (rows + [step])[i] == rows[i];
    assert (rows + [step])[|rows|] == step;
  }

  /** One failed insert, and the next row skips a number. */
  method FailedInsertLeavesGap() returns (log: RunLog)
    ensures fresh(log) && log.Valid() && !Gapless(log.rows)
    ensures log.rows == [Step(1, "Decompose"), Step(3, "failed")]
  {
    log := new RunLog();
    log.Append("Decompose", true);
    log.Append("doc_search", false);
    log.Append("failed", true);
    ThreeWrites(Append("Decompose", true), Append("doc_search", false), Append("failed", true));
    assert log.writes == [Append("Decompose", true), Append("doc_search", false), Append("failed", true)];
    assert log.rows[1].number == 3;
  }

  lemma {:induction false} ThreeWrites(a: Write, b: Write, c: Write)
    ensures LogAfter([a, b, c]) == Wrote(Wrote(Wrote(Log(0, [], Queued), a), b), c)
  {
    hide Wrote;
    Appended([], a);
    Appended([a], b);
    Appended([a, b], c);
    assert [] + [a] == [a] && [a] + [b] == [a, b] && [a, b] + [c] == [a, b, c];
  }

  // ---- one stream -----------------------------------------------------------

  datatype Frame = StepFrame(step: Step) | Done(status: Status) | TimedOut | NoSuchRun

  /** What one poll meets: its two statements read the step list, then the status. */
  datatype Poll = Poll(disconnected: bool, steps: seq<Step>, status: Status)

  const MAX_POLLS := 1200

  /** The rows beyond the cursor, in order. */
  function Beyond(log: seq<Step>, cursor: int): (r: seq<Step>)
  {
    if log == [] then []
    else
      var n := |log| - 1;
      Beyond(log[..n], cursor) + (if log[n].number > cursor then [log[n]] else [])
  }

  function Frames(steps: seq<Step>): (fs: seq<Frame>)
  {
    seq(|steps|, i requires 0 <= i < |steps| => StepFrame(steps[i]))
  }

  function Moved(cursor: int, steps: seq<Step>): int {
    if steps == [] then cursor else steps[|steps| - 1].number
  }

  function StreamFrom(cursor: int, polls: nat -> Poll, i: nat): seq<Frame>
    decreases MAX_POLLS - i
  {
    if i >= MAX_POLLS then [TimedOut]
    else if polls(i).disconnected then []
    else
      var unsent := Beyond(polls(i).steps, cursor);
      Frames(unsent) + (if Terminal(polls(i).status) then [Done(polls(i).status)]
                        else StreamFrom(Moved(cursor, unsent), polls, i + 1))
  }

  method SendSteps(steps: seq<Step>, cursor: int, sent: seq<Frame>) returns (last: int, frames: seq<Frame>)
    ensures last == Moved(cursor, steps) && frames == sent + Frames(steps)
  {
    last, frames := cursor, sent;
    for k := 0 to |steps|
      invariant last == Moved(cursor, steps[..k]) && frames == sent + Frames(steps[..k])
    {
      last := steps[k].number;
      frames := frames + [StepFrame(steps[k])];
      assert Frames(steps[..k + 1]) == Frames(steps[..k]) + [StepFrame(steps[k])];
    }
    assert steps[..|steps|] == steps;
  }

  /** The generator: poll, send what is new, stop at a terminal status. */
  method Events(cursor: int, visible: bool, polls: nat -> Poll) returns (frames: seq<Frame>)
    ensures frames == if visible then StreamFrom(cursor, polls, 0) else [NoSuchRun]
  {
    if !visible {
      return [NoSuchRun];
    }
    hide Beyond, Moved;
    var last, waited := cursor, 0;
    frames := [];
    while waited < MAX_POLLS
      invariant waited <= MAX_POLLS
      invariant StreamFrom(cursor, polls, 0) == frames + StreamFrom(last, polls, waited)
    {
      var poll := polls(waited);
      if poll.disconnected {
        return;
      }
      var steps := Beyond(poll.steps, last);
      ghost var sent := frames;
      last, frames := SendSteps(steps, last, frames);
      if Terminal(poll.status) {
        Joined(sent, Frames(steps), [Done(poll.status)]);
        frames := frames + [Done(poll.status)];
        return;
      }
      Joined(sent, Frames(steps), StreamFrom(last, polls, waited + 1));
      waited := waited + 1;
    }
    frames := frames + [TimedOut];
  }

  lemma {:induction false} Joined<T>(a: seq<T>, b: seq<T>, c: seq<T>)
    ensures (a + b) + c == a + (b + c)
  {
  }

  // ---- a client -------------------------------------------------------------

  /** The steps among the frames a client received. */
  function Received(frames: seq<Frame>): seq<Step> {
    if frames == [] then []
    else
      var n := |frames| - 1;
      Received(frames[..n]) + (if frames[n].StepFrame? then [frames[n].step] else [])
  }

  /** One connection: what the server met, and how many of its frames arrived. */
  datatype Connection = Connection(polls: nat -> Poll, arrived: nat)

  /** Everything received over several connections, each resuming after the last step
      received before it. */
  function ReceivedOver(connections: seq<Connection>): seq<Step> {
    if connections == [] then []
    else
      var before, c := ReceivedOver(connections[..|connections| - 1]), connections[|connections| - 1];
      before + Received(First(StreamFrom(Moved(0, before), c.polls, 0), c.arrived))
  }

  /** Every poll reads some prefix of the log the run ends up with. */
  ghost predicate ReadsPrefixes(polls: nat -> Poll, log: seq<Step>) {
    forall i: nat :: polls(i).steps <= log
  }

  lemma {:induction false} BeyondNone(log: seq<Step>, cursor: int)
    requires forall i :: 0 <= i < |log| ==> log[i].number <= cursor
    ensures Beyond(log, cursor) == []
  {
    if log != [] { BeyondNone(log[..|log| - 1], cursor); }
  }

  lemma {:induction false} BeyondSplit(log: seq<Step>, m: nat, n: nat, cursor: int)
    requires m <= n <= |log|
    requires forall i :: 0 <= i < m ==> log[i].number <= cursor
    requires forall i :: m <= i < |log| ==> log[i].number > cursor
    ensures Beyond(log[..n], cursor) == log[m..n]
  {
    if n == m {
      BeyondNone(log[..n], cursor);
    } else {
      BeyondSplit(log, m, n - 1, cursor);
      assert log[..n][..n - 1] == log[..n - 1];
      assert log[m..n] == log[m..n - 1] + [log[n - 1]];
    }
  }

  /** The rows beyond the `m`-th are the rows after the first `m`. */
  lemma {:induction false} BeyondPosition(log: seq<Step>, m: nat, n: nat)
    requires Ascending(log) && m <= |log| && n <= |log|
    ensures Beyond(log[..n], Moved(0, log[..m])) == if m <= n then log[m..n] else []
  {
    hide Beyond;
    if n < m {
      BeyondNone(log[..n], Moved(0, log[..m]));
    } else {
      BeyondSplit(log, m, n, Moved(0, log[..m]));
    }
  }

  lemma {:induction false} ReceivedConcat(a: seq<Frame>, b: seq<Frame>)
    ensures Received(a + b) == Received(a) + Received(b)
    decreases |b|
  {
    if b == [] {
      assert a + b == a;
    } else {
      ReceivedConcat(a, b[..|b| - 1]);
      assert (a + b)[..|a + b| - 1] == a + b[..|b| - 1];
    }
  }

  lemma {:induction false} ReceivedFrames(steps: seq<Step>)
    ensures Received(Frames(steps)) == steps
  {
    if steps != [] {
      var n := |steps| - 1;
      ReceivedFrames(steps[..n]);
      assert Frames(steps)[..n] == Frames(steps[..n]);
      assert steps[..n] + [steps[n]] == steps;
    }
  }

  /** One poll sends the rows from the cursor to the end of what it read. */
  lemma {:induction false} PollSends(log: seq<Step>, m: nat, polls: nat -> Poll, i: nat) returns (to: nat)
    requires Ascending(log) && m <= |log| && ReadsPrefixes(polls, log)
    ensures m <= to <= |log| && (m <= |polls(i).steps| ==> to == |polls(i).steps| && log[..to] == polls(i).steps)
    ensures var steps := Beyond(polls(i).steps, Moved(0, log[..m]));
            && steps == log[m..to] && Received(Frames(steps)) == steps
            && Moved(Moved(0, log[..m]), steps) == Moved(0, log[..to])
  {
    var size := |polls(i).steps|;
    assert polls(i).steps == log[..size];
    hide Beyond, Received, ReadsPrefixes, Ascending, Moved;
    to := if m <= size then size else m;
    BeyondPosition(log, m, size);
    assert Moved(Moved(0, log[..m]), log[m..to]) == Moved(0, log[..to]);
    ReceivedFrames(log[m..to]);
    assert m > size ==> log[m..to] == [];
  }

  /** A stream sends a contiguous piece of the log, starting after its cursor. */
  lemma {:induction false} StreamIsSlice(log: seq<Step>, m: nat, polls: nat -> Poll, i: nat) returns (n: nat)
    requires Ascending(log) && m <= |log| && ReadsPrefixes(polls, log)
    ensures m <= n <= |log| && Received(StreamFrom(Moved(0, log[..m]), polls, i)) == log[m..n]
    decreases MAX_POLLS - i
  {
    hide Beyond, Received, ReadsPrefixes, Moved, Ascending;
    NoSteps();
    if i >= MAX_POLLS || polls(i).disconnected {
      n := m;
    } else {
      var to := PollSends(log, m, polls, i);
      var steps := Beyond(polls(i).steps, Moved(0, log[..m]));
      if Terminal(polls(i).status) {
        n := to;
        ReceivedConcat(Frames(steps), [Done(polls(i).status)]);
      } else {
        n := StreamIsSlice(log, to, polls, i + 1);
        ReceivedConcat(Frames(steps), StreamFrom(Moved(0, log[..to]), polls, i + 1));
        assert log[m..to] + log[to..n] == log[m..n];
      }
    }
  }

  lemma {:induction false} NoSteps()
    ensures Received([]) == [] && Received([TimedOut]) == [] && forall s :: Received([Done(s)]) == []
  {
  }

  lemma {:induction false} ReceivedPrefix(frames: seq<Frame>, n: nat)
    ensures Received(First(frames, n)) <= Received(frames)
  {
    if n < |frames| {
      ReceivedConcat(frames[..n], frames[n..]);
      assert frames[..n] + frames[n..] == frames;
    }
  }

  /** Over any polls, cuts and reconnections a client has received a prefix of the log:
      nothing skipped, nothing repeated, nothing out of order. */
  lemma {:induction false} ClientHoldsPrefix(connections: seq<Connection>, log: seq<Step>)
    requires Ascending(log) && forall c :: 0 <= c < |connections| ==> ReadsPrefixes(connections[c].polls, log)
    ensures ReceivedOver(connections) <= log
  {
    hide Ascending, ReadsPrefixes, StreamFrom, Received;
    if connections != [] {
      var k := |connections| - 1;
      ClientHoldsPrefix(connections[..k], log);
      var before := ReceivedOver(connections[..k]);
      var m := |before|;
      assert before == log[..m];
      var n := StreamIsSlice(log, m, connections[k].polls, 0);
      var frames := StreamFrom(Moved(0, before), connections[k].polls, 0);
      ReceivedPrefix(frames, connections[k].arrived);
      assert log[..m] + (Received(First(frames, connections[k].arrived))) <= log;
    }
  }

  /** When no insert succeeds after a failed one, the numbers received are 1, 2, ..., m. */
  lemma {:induction false} ClientCountsUp(connections: seq<Connection>, writes: seq<Write>)
    requires FailuresLast(writes)
    requires forall c :: 0 <= c < |connections| ==> ReadsPrefixes(connections[c].polls, LogAfter(writes).rows)
    ensures Gapless(ReceivedOver(connections))
  {
    hide LogAfter, FailuresLast, ReadsPrefixes, ReceivedOver, AllInserted;
    GaplessIff(writes);
    LogShape(writes);
    ClientHoldsPrefix(connections, LogAfter(writes).rows);
  }

  // ---- when `done` is true --------------------------------------------------

  /** The poll at which the stream reports the end, if it does. */
  function EndPoll(polls: nat -> Poll, i: nat): Option<nat>
    decreases MAX_POLLS - i
  {
    if i >= MAX_POLLS || polls(i).disconnected then None
    else if Terminal(polls(i).status) then Some(i)
    else EndPoll(polls, i + 1)
  }

  /** A stream ends at any status but queued and running: a run waiting for confirmation is
      over as far as the stream goes. */
  lemma {:induction false} EndsAt(s: Status)
    ensures Terminal(s) <==> s in {Completed, AwaitingConfirmation, Failed, Cancelled, Expired}
  {
  }

  /** The poll found reports such a status, no earlier one did, and the client was there. */
  lemma {:induction false} EndPollIs(polls: nat -> Poll, i: nat)
    ensures var end := EndPoll(polls, i);
            if end.Some? then
              && i <= end.value < MAX_POLLS && Terminal(polls(end.value).status)
              && (forall k :: i <= k <= end.value ==> !polls(k).disconnected)
              && (forall k :: i <= k < end.value ==> !Terminal(polls(k).status))
            else
              forall k :: i <= k < MAX_POLLS && Terminal(polls(k).status) ==>
                exists j :: i <= j <= k && polls(j).disconnected
    decreases MAX_POLLS - i
  {
    hide Terminal;
    if i < MAX_POLLS && !polls(i).disconnected && !Terminal(polls(i).status) { EndPollIs(polls, i + 1); }
  }

  predicate NoneDone(frames: seq<Frame>) {
    forall k :: 0 <= k < |frames| ==> !frames[k].Done?
  }

  predicate LastFrame(frames: seq<Frame>, last: Frame) {
    frames != [] && frames[|frames| - 1] == last
  }

  predicate StaysFrom(polls: nat -> Poll, i: nat) {
    forall k :: i <= k < MAX_POLLS ==> !polls(k).disconnected
  }

  /** With such a poll, `done` is sent with that poll's status, last and once. */
  lemma {:induction false} DoneIsLast(cursor: int, polls: nat -> Poll, i: nat)
    requires EndPoll(polls, i).Some?
    ensures var frames, end := StreamFrom(cursor, polls, i), EndPoll(polls, i).value;
            LastFrame(frames, Done(polls(end).status)) && NoneDone(frames[..|frames| - 1])
    decreases MAX_POLLS - i
  {
    hide Beyond, Moved, Terminal, LastFrame, NoneDone;
    var unsent := Beyond(polls(i).steps, cursor);
    if Terminal(polls(i).status) {
      DoneAlone(polls(i).status);
      DoneBehind(unsent, [Done(polls(i).status)], Done(polls(i).status));
    } else {
      DoneIsLast(Moved(cursor, unsent), polls, i + 1);
      DoneBehind(unsent, StreamFrom(Moved(cursor, unsent), polls, i + 1), Done(polls(EndPoll(polls, i).value).status));
    }
  }

  lemma {:induction false} DoneAlone(s: Status)
    ensures LastFrame([Done(s)], Done(s)) && NoneDone([Done(s)][..0])
  {
  }

  lemma {:induction false} DoneBehind(steps: seq<Step>, rest: seq<Frame>, last: Frame)
    requires LastFrame(rest, last) && NoneDone(rest[..|rest| - 1])
    ensures var all := Frames(steps) + rest;
            LastFrame(all, last) && NoneDone(all[..|all| - 1])
  {
    var all := Frames(steps) + rest;
    assert all[..|all| - 1] == Frames(steps) + rest[..|rest| - 1];
    BehindSteps(steps, rest[..|rest| - 1]);
  }

  /** Without such a poll no `done` is sent, and the stream times out unless the client left. */
  lemma {:induction false} NoEndNoDone(cursor: int, polls: nat -> Poll, i: nat)
    requires i <= MAX_POLLS && EndPoll(polls, i).None?
    ensures NoneDone(StreamFrom(cursor, polls, i))
    ensures LastFrame(StreamFrom(cursor, polls, i), TimedOut) <==> StaysFrom(polls, i)
    decreases MAX_POLLS - i
  {
    hide Beyond, Moved, Terminal, LastFrame, NoneDone;
    if i == MAX_POLLS || polls(i).disconnected {
      NothingSent(cursor, polls, i);
    } else {
      var unsent := Beyond(polls(i).steps, cursor);
      NoEndNoDone(Moved(cursor, unsent), polls, i + 1);
      BehindSteps(unsent, StreamFrom(Moved(cursor, unsent), polls, i + 1));
    }
  }

  lemma {:induction false} NothingSent(cursor: int, polls: nat -> Poll, i: nat)
    requires i == MAX_POLLS || (i < MAX_POLLS && polls(i).disconnected)
    ensures NoneDone(StreamFrom(cursor, polls, i))
    ensures LastFrame(StreamFrom(cursor, polls, i), TimedOut) <==> StaysFrom(polls, i)
  {
  }

  lemma {:induction false} BehindSteps(steps: seq<Step>, rest: seq<Frame>)
    ensures NoneDone(Frames(steps) + rest) <==> NoneDone(rest)
    ensures LastFrame(Frames(steps) + rest, TimedOut) <==> LastFrame(rest, TimedOut)
  {
    var all := Frames(steps) + rest;
    assert forall k :: 0 <= k < |rest| ==> all[|steps| + k] == rest[k];
    if rest == [] && all != [] { assert all[|all| - 1] == StepFrame(steps[|steps| - 1]); }
  }

  ghost predicate GrowsAt(polls: nat -> Poll, i: nat) {
    polls(i).steps <= polls(i + 1).steps
  }

  ghost predicate Grows(polls: nat -> Poll) {
    forall i: nat :: GrowsAt(polls, i)
  }

  /** A stream that reports the end has by then sent every step its last poll read. */
  lemma {:induction false} EndSendsAllRead(log: seq<Step>, m: nat, polls: nat -> Poll, i: nat)
    requires Ascending(log) && m <= |log| && ReadsPrefixes(polls, log) && Grows(polls)
    requires m <= |polls(i).steps| && EndPoll(polls, i).Some?
    ensures var frames := StreamFrom(Moved(0, log[..m]), polls, i);
            var end := polls(EndPoll(polls, i).value);
            && frames != [] && frames[|frames| - 1] == Done(end.status)
            && log[..m] + Received(frames) == end.steps
    decreases MAX_POLLS - i
  {
    hide Beyond, Received, ReadsPrefixes, Moved, Ascending, Grows;
    NoSteps();
    var to := PollSends(log, m, polls, i);
    var steps := Beyond(polls(i).steps, Moved(0, log[..m]));
    assert log[..m] + log[m..to] == log[..to];
    if Terminal(polls(i).status) {
      ReceivedConcat(Frames(steps), [Done(polls(i).status)]);
    } else {
      GrowsNext(polls, i);
      EndSendsAllRead(log, to, polls, i + 1);
      var rest := StreamFrom(Moved(0, log[..to]), polls, i + 1);
      ReceivedConcat(Frames(steps), rest);
      Joined(log[..m], log[m..to], Received(rest));
    }
  }

  lemma {:induction false} GrowsNext(polls: nat -> Poll, i: nat)
    requires Grows(polls)
    ensures |polls(i).steps| <= |polls(i + 1).steps|
  {
    assert GrowsAt(polls, i);
  }

  // ---- the writer and the reader together -----------------------------------

  /** When each poll's two statements ran: after how many of the run's writes. */
  datatype Schedule = Schedule(stepsAt: nat -> nat, statusAt: nat -> nat)

  ghost predicate PollMeets(poll: Poll, writes: seq<Write>, p: nat, q: nat) {
    p <= q <= |writes| && poll.steps == LogAfter(writes[..p]).rows && poll.status == LogAfter(writes[..q]).status
  }

  ghost predicate FollowsAt(polls: nat -> Poll, writes: seq<Write>, at: Schedule, i: nat) {
    PollMeets(polls(i), writes, at.stepsAt(i), at.statusAt(i)) && at.statusAt(i) <= at.stepsAt(i + 1)
  }

  /** Every poll reads what the run has written by then, and time does not run backwards. */
  ghost predicate Follows(polls: nat -> Poll, writes: seq<Write>, at: Schedule) {
    forall i: nat :: FollowsAt(polls, writes, at, i)
  }

  /** No row is added by the writes from `p` to `q`. */
  predicate NoRowIn(writes: seq<Write>, p: nat, q: nat) {
    forall k :: p <= k < q && k < |writes| && writes[k].Append? ==> !writes[k].inserted
  }

  lemma {:induction false} RowsGrow(writes: seq<Write>, p: nat, q: nat)
    requires p <= q <= |writes|
    ensures LogAfter(writes[..p]).rows <= LogAfter(writes[..q]).rows
    ensures LogAfter(writes[..p]).rows == LogAfter(writes[..q]).rows <==> NoRowIn(writes, p, q)
  {
    if p < q {
      RowsGrow(writes, p, q - 1);
      assert writes[..q] == writes[..q - 1] + [writes[q - 1]];
      Appended(writes[..q - 1], writes[q - 1]);
      assert NoRowIn(writes, p, q) <==> NoRowIn(writes, p, q - 1) && (writes[q - 1].Append? ==> !writes[q - 1].inserted);
      hide LogAfter, NoRowIn;
    }
  }

  lemma {:induction false} FollowsReads(polls: nat -> Poll, writes: seq<Write>, at: Schedule)
    requires Follows(polls, writes, at)
    ensures ReadsPrefixes(polls, LogAfter(writes).rows) && Grows(polls) && Ascending(LogAfter(writes).rows)
  {
    hide Ascending, NoRowIn, LogAfter, Wrote, AllInserted;
    LogShape(writes);
    assert writes[..|writes|] == writes;
    forall i: nat ensures polls(i).steps <= LogAfter(writes).rows && GrowsAt(polls, i) {
      assert FollowsAt(polls, writes, at, i) && FollowsAt(polls, writes, at, i + 1);
      RowsGrow(writes, at.stepsAt(i), |writes|);
      RowsGrow(writes, at.stepsAt(i), at.stepsAt(i + 1));
    }
  }

  /** `done` comes after every step of the run exactly when no row was written between its
      poll's two statements, and none after the second. */
  lemma {:induction false} DoneIsCompleteIff(writes: seq<Write>, m: nat, polls: nat -> Poll, at: Schedule)
    requires Follows(polls, writes, at) && m <= |polls(0).steps| && m <= |LogAfter(writes).rows|
    requires EndPoll(polls, 0).Some?
    ensures var log, end := LogAfter(writes).rows, EndPoll(polls, 0).value;
            log[..m] + Received(StreamFrom(Moved(0, log[..m]), polls, 0)) == log <==>
              NoRowIn(writes, at.stepsAt(end), at.statusAt(end)) && NoRowIn(writes, at.statusAt(end), |writes|)
  {
    hide StreamFrom, Received, Ascending, EndPoll, LogAfter, Moved, Grows, ReadsPrefixes;
    FollowsReads(polls, writes, at);
    var log, end := LogAfter(writes).rows, EndPoll(polls, 0).value;
    EndSendsAllRead(log, m, polls, 0);
    assert FollowsAt(polls, writes, at, end);
    RowsGrow(writes, at.stepsAt(end), |writes|);
    assert writes[..|writes|] == writes;
  }

  /** The run writes no row once it has a terminal status. */
  predicate EndsClean(writes: seq<Write>) {
    forall i, j :: 0 <= i < j < |writes| && writes[i].SetStatus? && Terminal(writes[i].status) && writes[j].Append? ==>
      !writes[j].inserted
  }

  lemma {:induction false} TerminalWritten(writes: seq<Write>) returns (i: nat)
    requires Terminal(LogAfter(writes).status)
    ensures i < |writes| && writes[i].SetStatus? && Terminal(writes[i].status)
  {
    var n := |writes| - 1;
    assert writes != [];
    if writes[n].SetStatus? {
      i := n;
    } else {
      i := TerminalWritten(writes[..n]);
    }
  }

  lemma {:induction false} EndPollEnds(polls: nat -> Poll, i: nat)
    requires EndPoll(polls, i).Some?
    ensures Terminal(polls(EndPoll(polls, i).value).status)
    decreases MAX_POLLS - i
  {
    if i < MAX_POLLS && !polls(i).disconnected && !Terminal(polls(i).status) { EndPollEnds(polls, i + 1); }
  }

  /** For a run that ends cleanly only a row between the two statements can be missed. */
  lemma {:induction false} CleanDoneIff(writes: seq<Write>, m: nat, polls: nat -> Poll, at: Schedule)
    requires Follows(polls, writes, at) && m <= |polls(0).steps| && m <= |LogAfter(writes).rows|
    requires EndPoll(polls, 0).Some? && EndsClean(writes)
    ensures var log, end := LogAfter(writes).rows, EndPoll(polls, 0).value;
            log[..m] + Received(StreamFrom(Moved(0, log[..m]), polls, 0)) == log <==>
              NoRowIn(writes, at.stepsAt(end), at.statusAt(end))
  {
    hide StreamFrom, Received, EndPoll, LogAfter, Moved;
    DoneIsCompleteIff(writes, m, polls, at);
    EndPollEnds(polls, 0);
    var end := EndPoll(polls, 0).value;
    assert FollowsAt(polls, writes, at, end);
    var i := TerminalWritten(writes[..at.statusAt(end)]);
    assert writes[i] == writes[..at.statusAt(end)][i];
  }

  const FIRST := Step(1, "Decompose")
  const SECOND := Step(2, "Synthesise")

  /** The last step and the final status both land between the two statements: `done`
      goes out after the first of two steps. */
  lemma {:induction false} LastStepMissed()
    ensures var writes := [Append("Decompose", true), Append("Synthesise", true), SetStatus(Completed)];
            var polls := (i: nat) => Poll(false, if i == 0 then [FIRST] else [FIRST, SECOND], Completed);
            var at := Schedule((i: nat) => if i == 0 then 1 else 3, (i: nat) => 3);
            && Follows(polls, writes, at) && EndsClean(writes) && LogAfter(writes).rows == [FIRST, SECOND]
            && StreamFrom(0, polls, 0) == [StepFrame(FIRST), Done(Completed)]
  {
    var writes := [Append("Decompose", true), Append("Synthesise", true), SetStatus(Completed)];
    var polls := (i: nat) => Poll(false, if i == 0 then [FIRST] else [FIRST, SECOND], Completed);
    var at := Schedule((i: nat) => if i == 0 then 1 else 3, (i: nat) => 3);
    ThreeWrites(Append("Decompose", true), Append("Synthesise", true), SetStatus(Completed));
    OneStepThenDone(polls);
    assert writes[..1] == [] + [Append("Decompose", true)] && writes[..3] == writes;
    Appended([], Append("Decompose", true));
    hide LogAfter, StreamFrom, Terminal;
    assert forall i: nat :: FollowsAt(polls, writes, at, i);
  }

  lemma {:induction false} OneStepThenDone(polls: nat -> Poll)
    requires polls(0) == Poll(false, [FIRST], Completed)
    ensures StreamFrom(0, polls, 0) == [StepFrame(FIRST), Done(Completed)]
  {
    assert [FIRST][..0] == [] && Beyond([FIRST], 0) == [FIRST];
    assert Frames([FIRST]) == [StepFrame(FIRST)];
  }

  /** A crash after the final status was written adds a row that `done` came before. */
  lemma {:induction false} FailureAfterDone()
    ensures var writes := [Append("Decompose", true), SetStatus(Completed), Append("failed", true)];
            var polls, at := (i: nat) => Poll(false, [FIRST], Completed), Schedule((i: nat) => 2, (i: nat) => 2);
            && Follows(polls, writes, at) && LogAfter(writes).rows == [FIRST, Step(2, "failed")]
            && NoRowIn(writes, at.stepsAt(0), at.statusAt(0)) && !EndsClean(writes)
            && StreamFrom(0, polls, 0) == [StepFrame(FIRST), Done(Completed)]
  {
    var writes := [Append("Decompose", true), SetStatus(Completed), Append("failed", true)];
    var polls, at := (i: nat) => Poll(false, [FIRST], Completed), Schedule((i: nat) => 2, (i: nat) => 2);
    ThreeWrites(Append("Decompose", true), SetStatus(Completed), Append("failed", true));
    OneStepThenDone(polls);
    assert writes[..2] == [Append("Decompose", true)] + [SetStatus(Completed)];
    Appended([Append("Decompose", true)], SetStatus(Completed));
    Appended([], Append("Decompose", true));
    assert [] + [Append("Decompose", true)] == [Append("Decompose", true)];
    assert writes[1].SetStatus? && writes[2].inserted && !EndsClean(writes);
    hide LogAfter, StreamFrom, Terminal;
    assert forall i: nat :: FollowsAt(polls, writes, at, i);
  }
}
