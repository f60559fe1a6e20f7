/** Where a label ends up, read off the steps of the run (apps/api/scripts/niimbot-bridge.ts). */
module LabelOutcomes {
  import opened LabelBridge

  /** What an acknowledgement that gets through says about a label. */
  datatype Word = Nothing | Done | Failed

  function WordOf(s: State, d: nat, a: Action, id: int): Word
  {
    var p := PhaseOf(s, d);
    if !AtRow(s, p) || RowAt(s, p).id != id then Nothing
    else if a.AckPrinted? && p.stage.Acking? && (a.ack.Handled? || a.ack.LostAnswer?) then Done
    else if a.AckFailed? && p.stage.Failing? && (a.ack.Handled? || a.ack.LostAnswer?) then Failed
    else Nothing
  }

  /** The first acknowledgement of a label to get through, from whichever pass. */
  function FirstWord(s: State, steps: seq<(nat, Action)>, id: int): Word
  {
    if steps == [] then Nothing
    else
      var n := |steps| - 1;
      var w := FirstWord(s, steps[..n], id);
      if w != Nothing then w else WordOf(Run(s, steps[..n]), steps[n].0, steps[n].1, id)
  }

  /** What a call to the printer comes to when it reports the label done, and when it puts out a copy. */
  const DONE := {Accepted}
  const COPIED := {Accepted, Rejected(true)}

  /** A daemon sends the label to the printer now, and the call comes to one of these. */
  predicate SentNow(s: State, d: nat, a: Action, id: int, calls: set<SendReply>)
  {
    var p := PhaseOf(s, d);
    AtRow(s, p) && p.stage.Sending? && RowAt(s, p) == Row(id, Png) && a.Send? && a.send in calls
  }

  predicate SentAt(s: State, steps: seq<(nat, Action)>, k: int, id: int, calls: set<SendReply>)
  {
    0 <= k < |steps| && SentNow(Run(s, steps[..k]), steps[k].0, steps[k].1, id, calls)
  }

  ghost predicate Sent(s: State, steps: seq<(nat, Action)>, id: int, calls: set<SendReply>)
  {
    exists k :: SentAt(s, steps, k, id, calls)
  }

  // ------------------------------------------------------------------ the first word decides

  /** Every label a pass fetched is known, and was queued at first or spooled later. */
  ghost predicate FetchedFromQueue(s: State, first: map<int, Status>)
  {
    forall p :: 0 <= p < |s.passes| ==>
      forall i :: 0 <= i < |s.passes[p]| ==>
        s.passes[p][i].id in s.labels && (s.passes[p][i].id in first ==> first[s.passes[p][i].id].Generated?)
  }

  lemma StepFetchesFromQueue(s: State, first: map<int, Status>, d: nat, a: Action)
    requires LabelsSound(s, first) && FetchedFromQueue(s, first)
    ensures FetchedFromQueue(Step(s, d, a), first)
  {
    var t := Step(s, d, a);
    assert s.labels.Keys <= t.labels.Keys;
    assert a.Poll? && t.passes != s.passes ==> t.passes == s.passes + [a.rows] && Listed(s, a.rows);
  }

  ghost predicate Stands(s: State, first: map<int, Status>, id: int, w: Word)
  {
    match w
    case Nothing => id in s.labels ==> s.labels[id] == if id in first then first[id] else Generated
    case Done => id in s.labels && s.labels[id] == Printed
    case Failed => id in s.labels && s.labels[id] == Damaged
  }

  lemma WordStep(s: State, first: map<int, Status>, d: nat, a: Action, id: int, w: Word)
    requires FetchedFromQueue(s, first) && Stands(s, first, id, w) && (id in first ==> id in s.labels)
    ensures Stands(Step(s, d, a), first, id, if w != Nothing then w else WordOf(s, d, a, id))
  {
    var p := PhaseOf(s, d);
    if AtRow(s, p) { assert s.passes[p.pass][p.next] == RowAt(s, p); }
  }

  /**
   However passes, crashes and lost answers interleave, the first acknowledgement to get through decides:
   the label is printed, or damaged, for good; and without one it stays as it was.
   */
  lemma {:induction false} FirstWordDecides(first: map<int, Status>, steps: seq<(nat, Action)>, id: int)
    ensures Stands(Run(Start(first), steps), first, id, FirstWord(Start(first), steps, id))
    ensures FetchedFromQueue(Run(Start(first), steps), first)
  {
    if steps != [] {
      var n := |steps| - 1;
      var s := Run(Start(first), steps[..n]);
      FirstWordDecides(first, steps[..n], id);
      RunKeepsInv(first, steps[..n]);
      StepFetchesFromQueue(s, first, steps[n].0, steps[n].1);
      WordStep(s, first, steps[n].0, steps[n].1, id, FirstWord(Start(first), steps[..n], id));
    }
  }

  // ------------------------------------------------------------------ written off all the same

  ghost predicate AcceptedInSomePass(s: State, id: int) { exists p :: (p, id) in s.accepted }

  lemma AcceptStep(s: State, d: nat, a: Action, id: int)
    ensures AcceptedInSomePass(Step(s, d, a), id) <==> AcceptedInSomePass(s, id) || SentNow(s, d, a, id, DONE)
  {
    var t, p := Step(s, d, a), PhaseOf(s, d);
    if SentNow(s, d, a, id, DONE) { assert (p.pass, id) in t.accepted; }
    forall q | (q, id) in s.accepted ensures (q, id) in t.accepted {}
  }

  lemma CopyStep(s: State, d: nat, a: Action, id: int)
    ensures Copies(Step(s, d, a).prints, id) == Copies(s.prints, id) + if SentNow(s, d, a, id, COPIED) then 1 else 0
  {
    var p := PhaseOf(s, d);
    if AtRow(s, p) { CopiesJoin(s.prints, (p.pass, RowAt(s, p).id), id); }
  }

  lemma SentNext(s: State, steps: seq<(nat, Action)>, n: nat, id: int, calls: set<SendReply>)
    requires |steps| == n + 1
    ensures Sent(s, steps, id, calls) <==> Sent(s, steps[..n], id, calls) || SentAt(s, steps, n, id, calls)
  {
    forall k | 0 <= k < n ensures SentAt(s, steps, k, id, calls) <==> SentAt(s, steps[..n], k, id, calls) {
      assert steps[..n][..k] == steps[..k];
    }
  }

  lemma {:induction false} AcceptedIffSent(s: State, steps: seq<(nat, Action)>, id: int)
    requires s.accepted == {}
    ensures AcceptedInSomePass(Run(s, steps), id) <==> Sent(s, steps, id, DONE)
  {
    if steps != [] {
      var n := |steps| - 1;
      AcceptedIffSent(s, steps[..n], id);
      AcceptStep(Run(s, steps[..n]), steps[n].0, steps[n].1, id);
      SentNext(s, steps, n, id, DONE);
    }
  }

  lemma {:induction false} CopiedIffSent(s: State, steps: seq<(nat, Action)>, id: int)
    requires s.prints == []
    ensures Copies(Run(s, steps).prints, id) >= 1 <==> Sent(s, steps, id, COPIED)
  {
    if steps != [] {
      var n := |steps| - 1;
      CopiedIffSent(s, steps[..n], id);
      CopyStep(Run(s, steps[..n]), steps[n].0, steps[n].1, id);
      SentNext(s, steps, n, id, COPIED);
    }
  }

  predicate WrittenOff(s: State, id: int) { id in s.labels && s.labels[id] == Damaged }

  /**
   A label is damaged although the printer reported it done, in whatever pass, exactly when the printer did so at some
   step and the first acknowledgement to get through said it had failed.
   */
  lemma WrittenOffThoughDoneIff(first: map<int, Status>, steps: seq<(nat, Action)>, id: int)
    requires id in first ==> first[id] != Damaged
    ensures var s := Run(Start(first), steps);
            WrittenOff(s, id) && AcceptedInSomePass(s, id) <==>
              Sent(Start(first), steps, id, DONE) && FirstWord(Start(first), steps, id) == Failed
  {
    FirstWordDecides(first, steps, id);
    AcceptedIffSent(Start(first), steps, id);
  }

  /** The same for physical copies, which a failed call to the printer may leave behind too. */
  lemma WrittenOffThoughCopiedIff(first: map<int, Status>, steps: seq<(nat, Action)>, id: int)
    requires id in first ==> first[id] != Damaged
    ensures var s := Run(Start(first), steps);
            WrittenOff(s, id) && Copies(s.prints, id) >= 1 <==>
              Sent(Start(first), steps, id, COPIED) && FirstWord(Start(first), steps, id) == Failed
  {
    FirstWordDecides(first, steps, id);
    CopiedIffSent(Start(first), steps, id);
  }

  /**
   What became of the acknowledgement that was due after the printer had reported the label done: still due, or, at
   step k, overtaken by a crash, refused or lost on the way, or too late.
   */
  datatype Fate = Due | Crashed(k: nat) | Unheard(k: nat) | TooLate(k: nat)

  ghost predicate IsFate(s: State, steps: seq<(nat, Action)>, d: nat, p: Phase, id: int, fate: Fate)
  {
    match fate
    case Due => PhaseOf(Run(s, steps), d) == p
    case Crashed(k) => k < |steps| && PhaseOf(Run(s, steps[..k]), d) == p && steps[k] == (d, Crash)
    case Unheard(k) =>
      && k < |steps| && PhaseOf(Run(s, steps[..k]), d) == p
      && (steps[k] == (d, AckPrinted(Refused)) || steps[k] == (d, AckPrinted(LostRequest)))
    case TooLate(k) =>
      && k < |steps| && PhaseOf(Run(s, steps[..k]), d) == p
      && steps[k].0 == d && steps[k].1.AckPrinted? && (steps[k].1.ack.Handled? || steps[k].1.ack.LostAnswer?)
      && FirstWord(s, steps[..k], id) == Failed
  }

  lemma AckingUntil(s: State, d: nat, e: nat, a: Action)
    requires PhaseOf(s, d).Working? && PhaseOf(s, d).stage.Acking? && PhaseOf(Step(s, e, a), d) != PhaseOf(s, d)
    ensures e == d && (a == Crash || a.AckPrinted?)
  {}

  lemma {:induction false} FirstWordStays(s: State, steps: seq<(nat, Action)>, k: nat, id: int)
    requires k <= |steps| && FirstWord(s, steps[..k], id) != Nothing
    ensures FirstWord(s, steps, id) == FirstWord(s, steps[..k], id)
    decreases |steps|
  {
    if k == |steps| {
      assert steps[..k] == steps;
    } else {
      var n := |steps| - 1;
      assert steps[..n][..k] == steps[..k];
      FirstWordStays(s, steps[..n], k, id);
    }
  }

  /** When a label was written off all the same, every report of the printer's met one of these fates. */
  lemma {:induction false} FateOfReport(s: State, steps: seq<(nat, Action)>, j: nat, id: int) returns (fate: Fate)
    requires j < |steps| && SentAt(s, steps, j, id, DONE)
    requires FirstWord(s, steps, id) != Done
    ensures var p := PhaseOf(Run(s, steps[..j]), steps[j].0);
            IsFate(s, steps, steps[j].0, Working(p.pass, p.next, Acking), id, fate)
    decreases |steps|
  {
    var n, d := |steps| - 1, steps[j].0;
    var before := Run(s, steps[..n]);
    var p := PhaseOf(Run(s, steps[..j]), d);
    var acking := Working(p.pass, p.next, Acking);
    if j == n {
      fate := Due;
    } else {
      var short := steps[..n];
      assert short[..j] == steps[..j];
      fate := FateOfReport(s, short, j, id);
      if fate == Due {
        fate := FateNow(s, steps, j, id);
      } else {
        assert short[..fate.k] == steps[..fate.k];
      }
    }
  }

  /** An acknowledgement that gets through, and is not the first word, comes too late. */
  lemma LateWord(s: State, steps: seq<(nat, Action)>, n: nat, id: int)
    requires |steps| == n + 1 && FirstWord(s, steps, id) != Done
    requires WordOf(Run(s, steps[..n]), steps[n].0, steps[n].1, id) == Done
    ensures FirstWord(s, steps[..n], id) == Failed
  {}

  /** The row a daemon reported on is still the row it acknowledges. */
  lemma SameRow(s: State, steps: seq<(nat, Action)>, j: nat, n: nat, id: int)
    requires j <= n <= |steps| && j < |steps|
    requires var p := PhaseOf(Run(s, steps[..j]), steps[j].0);
             AtRow(Run(s, steps[..j]), p) && RowAt(Run(s, steps[..j]), p).id == id
    ensures var p := PhaseOf(Run(s, steps[..j]), steps[j].0);
            var acking := Working(p.pass, p.next, Acking);
            AtRow(Run(s, steps[..n]), acking) && RowAt(Run(s, steps[..n]), acking).id == id
  {
    assert steps[..n][..j] == steps[..j];
    RowStays(s, steps[..n], j);
  }

  lemma SentIsAtRow(s: State, steps: seq<(nat, Action)>, j: nat, id: int)
    requires j < |steps| && SentAt(s, steps, j, id, DONE)
    ensures var p := PhaseOf(Run(s, steps[..j]), steps[j].0);
            AtRow(Run(s, steps[..j]), p) && RowAt(Run(s, steps[..j]), p).id == id
  {}

  /** The last step of the run decides on an acknowledgement that was still due before it. */
  lemma FateNow(s: State, steps: seq<(nat, Action)>, j: nat, id: int) returns (fate: Fate)
    requires j + 1 < |steps| && SentAt(s, steps, j, id, DONE)
    requires FirstWord(s, steps, id) != Done
    requires var p := PhaseOf(Run(s, steps[..j]), steps[j].0);
             PhaseOf(Run(s, steps[..|steps| - 1]), steps[j].0) == Working(p.pass, p.next, Acking)
    ensures var p := PhaseOf(Run(s, steps[..j]), steps[j].0);
            IsFate(s, steps, steps[j].0, Working(p.pass, p.next, Acking), id, fate)
  {
    hide Step, AtRow, FirstWord, IsFate, RowAt;
    var n, d := |steps| - 1, steps[j].0;
    SentIsAtRow(s, steps, j, id);
    SameRow(s, steps, j, n, id);
    fate := FateAt(s, steps, n, d, id);
  }

  lemma FateAt(s: State, steps: seq<(nat, Action)>, n: nat, d: nat, id: int) returns (fate: Fate)
    requires |steps| == n + 1 && FirstWord(s, steps, id) != Done
    requires var p := PhaseOf(Run(s, steps[..n]), d);
             AtRow(Run(s, steps[..n]), p) && p.stage.Acking? && RowAt(Run(s, steps[..n]), p).id == id
    ensures IsFate(s, steps, d, PhaseOf(Run(s, steps[..n]), d), id, fate)
  {
    var before := Run(s, steps[..n]);
    if PhaseOf(Step(before, steps[n].0, steps[n].1), d) == PhaseOf(before, d) { return Due; }
    AckingUntil(before, d, steps[n].0, steps[n].1);
    if steps[n].1 == Crash { return Crashed(n); }
    if !(steps[n].1.ack.Handled? || steps[n].1.ack.LostAnswer?) { return Unheard(n); }
    LateWord(s, steps, n, id);
    fate := TooLate(n);
  }

  /** A row once fetched stays where it was. */
  lemma {:induction false} RowStays(s: State, steps: seq<(nat, Action)>, j: nat)
    requires j <= |steps|
    ensures Run(s, steps[..j]).passes <= Run(s, steps).passes
    decreases |steps|
  {
    if j == |steps| {
      assert steps[..j] == steps;
    } else {
      var n := |steps| - 1;
      assert steps[..n][..j] == steps[..j];
      RowStays(s, steps[..n], j);
      StepOnwards(Run(s, steps[..n]), steps[n].0, steps[n].1);
    }
  }

  // ------------------------------------------------------------------ each route, from any state

  /** Daemon d is about to acknowledge, or to send, a queued label. */
  predicate AboutTo(s: State, d: nat, row: Row, stage: Stage)
  {
    var p := PhaseOf(s, d);
    AtRow(s, p) && p.stage == stage && RowAt(s, p) == row && row.image.Png? && Queued(s, row.id)
  }

  /** A later pass whose call to the printer fails writes the label off, whatever happened before. */
  lemma LaterPassWritesOff(s: State, e: nat, row: Row, printed: bool)
    requires PhaseOf(s, e).Idle? && Queued(s, row.id) && row.image.Png?
    ensures var sent := Step(Step(s, e, Poll([row])), e, Send(Rejected(printed)));
            var t := Step(sent, e, AckFailed(Handled));
            WrittenOff(t, row.id) && t.accepted == s.accepted
  {
    var polled := Step(s, e, Poll([row]));
    assert Listed(s, [row]);
    assert polled.passes[|s.passes|] == [row];
    var sent := Step(polled, e, Send(Rejected(printed)));
    assert PhaseOf(sent, e) == Working(|s.passes|, 0, Failing(PrinterError));
    assert Queued(sent, row.id);
  }

  /** The daemon crashes before it acknowledges, starts again, and the printer then fails. */
  lemma CrashRoute(s: State, d: nat, row: Row)
    requires AboutTo(s, d, row, Acking)
    ensures var up := Step(Step(s, d, Crash), d, LogIn);
            var t := Step(Step(Step(up, d, Poll([row])), d, Send(Rejected(false))), d, AckFailed(Handled));
            WrittenOff(t, row.id) && t.accepted == s.accepted
  {
    var up := Step(Step(s, d, Crash), d, LogIn);
    assert PhaseOf(up, d) == Idle && Queued(up, row.id);
    LaterPassWritesOff(up, d, row, false);
  }

  /** The acknowledgement of the last row is refused, and the printer fails in the next pass. */
  lemma RefusedRoute(s: State, d: nat, row: Row)
    requires AboutTo(s, d, row, Acking) && PhaseOf(s, d).next + 1 == |s.passes[PhaseOf(s, d).pass]|
    ensures var on := Step(s, d, AckPrinted(Refused));
            var t := Step(Step(Step(on, d, Poll([row])), d, Send(Rejected(false))), d, AckFailed(Handled));
            WrittenOff(t, row.id) && t.accepted == s.accepted
  {
    var on := Step(s, d, AckPrinted(Refused));
    assert PhaseOf(on, d) == Idle && Queued(on, row.id);
    LaterPassWritesOff(on, d, row, false);
  }

  /** The acknowledgement is lost on the way, and the daemon reports the label as failed. */
  lemma LostRoute(s: State, d: nat, row: Row)
    requires AboutTo(s, d, row, Acking)
    ensures var t := Step(Step(s, d, AckPrinted(LostRequest)), d, AckFailed(Handled));
            WrittenOff(t, row.id) && t.accepted == s.accepted
  {
    var lost := Step(s, d, AckPrinted(LostRequest));
    assert PhaseOf(lost, d) == Working(PhaseOf(s, d).pass, PhaseOf(s, d).next, Failing(AckLost));
  }

  /** The printer puts out a copy and reports an error: damaged with a copy, and no acknowledgement was lost. */
  lemma RejectedRoute(s: State, d: nat, row: Row)
    requires AboutTo(s, d, row, Sending)
    ensures var t := Step(Step(s, d, Send(Rejected(true))), d, AckFailed(Handled));
            WrittenOff(t, row.id) && t.accepted == s.accepted &&
                Copies(t.prints, row.id) == Copies(s.prints, row.id) + 1
  {
    RejectedLeaves(s, d, row);
    var sent := Step(s, d, Send(Rejected(true)));
    hide Step;
    FailedWritesOff(sent, d, row);
  }

  lemma RejectedLeaves(s: State, d: nat, row: Row)
    requires AboutTo(s, d, row, Sending)
    ensures var t := Step(s, d, Send(Rejected(true)));
            AboutTo(t, d, row, Failing(PrinterError)) && t.accepted == s.accepted &&
                Copies(t.prints, row.id) == Copies(s.prints, row.id) + 1
  {
    CopyStep(s, d, Send(Rejected(true)), row.id);
  }

  lemma FailedWritesOff(s: State, d: nat, row: Row)
    requires AboutTo(s, d, row, Failing(PrinterError))
    ensures var t := Step(s, d, AckFailed(Handled));
            WrittenOff(t, row.id) && t.accepted == s.accepted && t.prints == s.prints
  {}

  /** All four routes are open in runs from a single queued label. */
  lemma RoutesAreOpen(row: Row)
    requires row == Row(1, Png)
    ensures exists s :: Reaches(Start(map[1 := Generated]), s) && AboutTo(s, 0, row, Sending)
    ensures exists s :: Reaches(Start(map[1 := Generated]), s) && AboutTo(s, 0, row, Acking)
              && PhaseOf(s, 0).next + 1 == |s.passes[PhaseOf(s, 0).pass]| && AcceptedInSomePass(s, 1)
  {
    OneLabelFetched(row);
    OneCopySent(row);
    var sent := State(map[1 := Generated], [[row]], [(0, 1)], {(0, 1)}, map[], map[], map[0 := Working(0, 0, Acking)]);
    assert (0, 1) in sent.accepted;
  }
}
