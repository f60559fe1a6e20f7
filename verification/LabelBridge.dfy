/**
 The label bridge daemon (apps/api/scripts/niimbot-bridge.ts) against the queue rule of the label
 spool: a label is listed until an acknowledgement takes it out (apps/api/src/services/niimbot.ts).
 Any number of daemons, each of which may crash and start again.
 */
module LabelBridge {
  import opened Wrappers

  datatype Status = Generated | Printed | Reprinted | Damaged | Void

  datatype Image = Missing | NotPng | Png

  datatype Row = Row(id: int, image: Image)

  /** What posting the image to the printer comes to; a failed call may have printed all the same. */
  datatype SendReply = Accepted | Rejected(printed: bool)

  /**
   What posting an acknowledgement comes to: handled; answered with an error status (an expired token,
   say), which the daemon does not look at; or no answer, the request having been handled or not.
   */
  datatype AckReply = Handled | Refused | LostRequest | LostAnswer

  datatype Cause = BadImage | PrinterError | AckLost

  datatype Stage = Sending | Acking | Failing(cause: Cause)

  /** `pass` numbers the poll whose rows the daemon works through; `next` is the row it is at. */
  datatype Phase = Down | Idle | Working(pass: nat, next: nat, stage: Stage)

  datatype Action =
    | Spool(id: int)
    | LogIn
    | Poll(rows: seq<Row>)
    | Send(send: SendReply)
    | AckPrinted(ack: AckReply)
    | AckFailed(ack: AckReply)
    | Crash

  /**
   `passes` lists what each poll returned; `prints` the physical copies, each with the pass that made it;
   `accepted` the ones the printer reported as done; `marked` and `written` say which pass's
   acknowledgement made a label printed, or damaged and why.
   */
  datatype State = State(
    labels: map<int, Status>,
    passes: seq<seq<Row>>,
    prints: seq<(nat, int)>,
    accepted: set<(nat, int)>,
    marked: map<int, nat>,
    written: map<int, (nat, Cause)>,
    daemons: map<nat, Phase>)

  function Start(labels: map<int, Status>): State { State(labels, [], [], {}, map[], map[], map[]) }

  const POLL_LIMIT := 10

  function PhaseOf(s: State, d: nat): Phase { if d in s.daemons then s.daemons[d] else Down }

  function Move(s: State, d: nat, p: Phase): State { s.(daemons := s.daemons[d := p]) }

  predicate Queued(s: State, id: int) { id in s.labels && s.labels[id].Generated? }

  /** A list the spool can return: queued labels in order of id, at most ten. */
  predicate Listed(s: State, rows: seq<Row>)
  {
    && |rows| <= POLL_LIMIT
    && (forall i :: 0 <= i < |rows| ==> Queued(s, rows[i].id))
    && forall i, j :: 0 <= i < j < |rows| ==> rows[i].id < rows[j].id
  }

  /** The spool's own rule for the two acknowledgements; anything else is a 404. */
  function MarkPrinted(s: State, id: int, pass: nat): State
  {
    if id in s.labels && (s.labels[id].Generated? || s.labels[id].Printed? || s.labels[id].Reprinted?)
    then s.(labels := s.labels[id := Printed], marked := s.marked[id := pass])
    else s
  }

  function MarkFailed(s: State, id: int, pass: nat, cause: Cause): State
  {
    if Queued(s, id) then s.(labels := s.labels[id := Damaged], written := s.written[id := (pass, cause)]) else s
  }

  /** The row a daemon is at, if it is at one. */
  predicate AtRow(s: State, p: Phase) { p.Working? && p.pass < |s.passes| && p.next < |s.passes[p.pass]| }

  function RowAt(s: State, p: Phase): Row
    requires AtRow(s, p)
  {
    s.passes[p.pass][p.next]
  }

  function AtOrIdle(s: State, pass: nat, next: nat): Phase
  {
    if pass < |s.passes| && next < |s.passes[pass]| then Working(pass, next, Sending) else Idle
  }

  function SendStep(s: State, d: nat, p: Phase, reply: SendReply): State
    requires AtRow(s, p)
  {
    var copy := (p.pass, RowAt(s, p).id);
    if RowAt(s, p).image != Png then Move(s, d, Working(p.pass, p.next, Failing(BadImage)))
    else match reply
      case Accepted =>
        Move(s, d, Working(p.pass, p.next, Acking)).(prints := s.prints + [copy], accepted := s.accepted + {copy})
      case Rejected(printed) =>
        var t := Move(s, d, Working(p.pass, p.next, Failing(PrinterError)));
        if printed then t.(prints := s.prints + [copy]) else t
  }

  function AckPrintedStep(s: State, d: nat, p: Phase, reply: AckReply): State
    requires AtRow(s, p)
  {
    var t := if reply.Handled? || reply.LostAnswer? then MarkPrinted(s, RowAt(s, p).id, p.pass) else s;
    var lost := reply.LostRequest? || reply.LostAnswer?;
    Move(t, d, if lost then Working(p.pass, p.next, Failing(AckLost)) else AtOrIdle(s, p.pass, p.next + 1))
  }

  function AckFailedStep(s: State, d: nat, p: Phase, cause: Cause, reply: AckReply): State
    requires AtRow(s, p)
  {
    var t := if (reply.Handled? || reply.LostAnswer?) then MarkFailed(s, RowAt(s, p).id, p.pass, cause) else s;
    Move(t, d, AtOrIdle(s, p.pass, p.next + 1))
  }

  /** One step of daemon d, or of whoever spools labels; an action that cannot happen now changes nothing. */
  function Step(s: State, d: nat, a: Action): State
  {
    var p := PhaseOf(s, d);
    match a
    case Spool(id) => if id in s.labels then s else s.(labels := s.labels[id := Generated])
    case LogIn => if p.Down? then Move(s, d, Idle) else s
    case Poll(rows) =>
      if p.Idle? && Listed(s, rows)
      then var t := s.(passes := s.passes + [rows]); Move(t, d, AtOrIdle(t, |s.passes|, 0))
      else s
    case Send(reply) => if AtRow(s, p) && p.stage.Sending? then SendStep(s, d, p, reply) else s
    case AckPrinted(reply) => if AtRow(s, p) && p.stage.Acking? then AckPrintedStep(s, d, p, reply) else s
    case AckFailed(reply) => if AtRow(s, p) && p.stage.Failing? then AckFailedStep(s, d, p, p.stage.cause, reply) else s
    case Crash => if p.Down? then s else Move(s, d, Down)
  }

  function Run(s: State, steps: seq<(nat, Action)>): State
  {
    if steps == [] then s
    else var n := |steps| - 1; Step(Run(s, steps[..n]), steps[n].0, steps[n].1)
  }

  // ------------------------------------------------------------------ invariant

  predicate Fetched(rows: seq<Row>, id: int) { exists i :: 0 <= i < |rows| && rows[i].id == id }

  /** The first row a daemon has not sent yet. */
  function Cursor(p: Phase): nat
    requires p.Working?
  {
    if p.stage.Sending? then p.next else p.next + 1
  }

  ghost predicate Ahead(rows: seq<Row>, p: Phase, id: int)
    requires p.Working?
  {
    exists i :: Cursor(p) <= i < |rows| && rows[i].id == id
  }

  /** Pass p returned the label, and the daemon that made it has sent the label already, or will never. */
  ghost predicate Behind(s: State, pass: nat, id: int)
  {
    && pass < |s.passes| && Fetched(s.passes[pass], id)
    && forall d :: d in s.daemons && s.daemons[d].Working? && s.daemons[d].pass == pass ==>
        !Ahead(s.passes[pass], s.daemons[d], id)
  }

  ghost predicate PassesInOrder(s: State)
  {
    forall p :: 0 <= p < |s.passes| ==>
      forall i, j :: 0 <= i < j < |s.passes[p]| ==> s.passes[p][i].id < s.passes[p][j].id
  }

  /** Each pass belongs to one daemon. */
  ghost predicate DaemonsApart(s: State)
  {
    && (forall d :: d in s.daemons && s.daemons[d].Working? ==> AtRow(s, s.daemons[d]))
    && forall d, e :: d in s.daemons && e in s.daemons && d != e && s.daemons[d].Working? && s.daemons[e].Working? ==>
         s.daemons[d].pass != s.daemons[e].pass
  }

  /** No pass printed a label twice, nor one it did not fetch. */
  ghost predicate PrintsSound(s: State)
  {
    && (forall k :: 0 <= k < |s.prints| ==> Behind(s, s.prints[k].0, s.prints[k].1))
    && (forall j, k :: 0 <= j < k < |s.prints| ==> s.prints[j] != s.prints[k])
    && forall c :: c in s.accepted ==> c in s.prints
  }

  /**
   A daemon acknowledges what the printer took, and reports as failed what it did not or what it could not
   acknowledge.
   */
  ghost predicate StagesSound(s: State)
  {
    forall d :: d in s.daemons && AtRow(s, s.daemons[d]) ==>
      match s.daemons[d].stage
      case Sending => true
      case Acking => (s.daemons[d].pass, RowAt(s, s.daemons[d]).id) in s.accepted
      case Failing(cause) => (s.daemons[d].pass, RowAt(s, s.daemons[d]).id) in s.accepted <==> cause.AckLost?
  }

  ghost predicate MarksSound(s: State)
  {
    forall id :: id in s.marked ==> (s.marked[id], id) in s.accepted
  }

  ghost predicate WrittenSound(s: State)
  {
    forall id :: id in s.written ==>
      Behind(s, s.written[id].0, id) && ((s.written[id].0, id) in s.accepted <==> s.written[id].1.AckLost?)
  }

  /** The labels that are printed or damaged now and were not at first are the ones acknowledged. */
  ghost predicate LabelsSound(s: State, first: map<int, Status>)
  {
    && (forall id :: id in first ==> id in s.labels)
    && forall id :: id in s.labels ==>
         || (id in s.marked && s.labels[id] == Printed)
         || (id in s.written && s.labels[id] == Damaged)
         || s.labels[id] == if id in first then first[id] else Generated
  }

  ghost predicate Inv(s: State, first: map<int, Status>)
  {
    && PassesInOrder(s) && DaemonsApart(s) && PrintsSound(s) && StagesSound(s)
    && MarksSound(s) && WrittenSound(s) && LabelsSound(s, first)
  }

  /** Where one step can take a daemon: out of its pass, onwards in it, or to a new one. */
  ghost predicate Onwards(s: State, t: State, d: nat)
  {
    var p, q := PhaseOf(s, d), PhaseOf(t, d);
    && s.passes <= t.passes
    && (forall e :: e != d ==> PhaseOf(t, e) == PhaseOf(s, e))
    && (q.Working? ==>
          || (p.Working? && q.pass == p.pass && Cursor(p) <= Cursor(q))
          || (q.pass == |s.passes| && p.Idle?))
  }

  lemma StepOnwards(s: State, d: nat, a: Action)
    ensures Onwards(s, Step(s, d, a), d)
  {}

  /** What is behind a daemon stays behind it. */
  lemma StaysBehind(s: State, t: State, d: nat, pass: nat, id: int)
    requires Onwards(s, t, d) && Behind(s, pass, id)
    ensures Behind(t, pass, id)
  {
    forall e | e in t.daemons && t.daemons[e].Working? && t.daemons[e].pass == pass
      ensures !Ahead(t.passes[pass], t.daemons[e], id)
    {
      assert PhaseOf(t, e) == t.daemons[e];
      assert e != d ==> PhaseOf(t, e) == PhaseOf(s, e);
    }
  }

  lemma StepKeepsPasses(s: State, d: nat, a: Action)
    requires PassesInOrder(s)
    ensures PassesInOrder(Step(s, d, a))
  {}

  lemma StepKeepsDaemonsApart(s: State, d: nat, a: Action)
    requires DaemonsApart(s)
    ensures DaemonsApart(Step(s, d, a))
  {
    StepOnwards(s, d, a);
    var t := Step(s, d, a);
    forall e | e in t.daemons && t.daemons[e].Working? ensures AtRow(t, t.daemons[e]) {
      if e != d { assert PhaseOf(t, e) == PhaseOf(s, e); }
    }
    forall e, f | e in t.daemons && f in t.daemons && e != f && t.daemons[e].Working? && t.daemons[f].Working?
      ensures t.daemons[e].pass != t.daemons[f].pass
    {
      assert e != d ==> PhaseOf(t, e) == PhaseOf(s, e);
      assert f != d ==> PhaseOf(t, f) == PhaseOf(s, f);
    }
  }

  lemma StepKeepsLabels(s: State, first: map<int, Status>, d: nat, a: Action)
    requires LabelsSound(s, first)
    ensures LabelsSound(Step(s, d, a), first)
  {}

  /** A daemon that has just sent its row has it behind, and had not before. */
  lemma SentIsBehind(s: State, d: nat, reply: SendReply)
    requires PassesInOrder(s) && DaemonsApart(s)
    requires AtRow(s, PhaseOf(s, d)) && PhaseOf(s, d).stage.Sending?
    ensures var p := PhaseOf(s, d);
        Behind(Step(s, d, Send(reply)), p.pass, RowAt(s, p).id) && !Behind(s, p.pass, RowAt(s, p).id)
  {
    var p, t := PhaseOf(s, d), Step(s, d, Send(reply));
    assert t.passes[p.pass][p.next].id == RowAt(s, p).id;
    assert Ahead(s.passes[p.pass], p, RowAt(s, p).id);
  }

  lemma SendKeepsPrints(s: State, d: nat, reply: SendReply)
    requires PassesInOrder(s) && DaemonsApart(s) && PrintsSound(s)
    requires AtRow(s, PhaseOf(s, d)) && PhaseOf(s, d).stage.Sending?
    ensures PrintsSound(Step(s, d, Send(reply)))
    ensures (PhaseOf(s, d).pass, RowAt(s, PhaseOf(s, d)).id) !in s.accepted
  {
    var p, t := PhaseOf(s, d), Step(s, d, Send(reply));
    var copy := (p.pass, RowAt(s, p).id);
    SentIsBehind(s, d, reply);
    StepOnwards(s, d, Send(reply));
    assert copy !in s.prints;
    forall k | 0 <= k < |t.prints| ensures Behind(t, t.prints[k].0, t.prints[k].1) {
      if k < |s.prints| { StaysBehind(s, t, d, t.prints[k].0, t.prints[k].1); }
    }
    forall c | c in t.accepted ensures c in t.prints { if c == copy { assert t.prints[|s.prints|] == copy; } }
  }

  lemma SendKeepsStages(s: State, d: nat, reply: SendReply)
    requires DaemonsApart(s) && StagesSound(s)
    requires AtRow(s, PhaseOf(s, d)) && PhaseOf(s, d).stage.Sending?
    requires (PhaseOf(s, d).pass, RowAt(s, PhaseOf(s, d)).id) !in s.accepted
    ensures StagesSound(Step(s, d, Send(reply)))
  {}

  lemma SendKeepsMarks(s: State, d: nat, reply: SendReply)
    requires MarksSound(s) && AtRow(s, PhaseOf(s, d)) && PhaseOf(s, d).stage.Sending?
    ensures MarksSound(Step(s, d, Send(reply)))
  {}

  lemma SendAccepts(s: State, d: nat, reply: SendReply)
    requires AtRow(s, PhaseOf(s, d)) && PhaseOf(s, d).stage.Sending?
    ensures var p, t := PhaseOf(s, d), Step(s, d, Send(reply));
            && t.written == s.written
            && forall c :: c in t.accepted <==> c in s.accepted || (c == (p.pass, RowAt(s, p).id) && c in t.accepted)
  {}

  lemma SendKeepsWritten(s: State, d: nat, reply: SendReply)
    requires PassesInOrder(s) && DaemonsApart(s) && WrittenSound(s)
    requires AtRow(s, PhaseOf(s, d)) && PhaseOf(s, d).stage.Sending?
    ensures WrittenSound(Step(s, d, Send(reply)))
  {
    var t := Step(s, d, Send(reply));
    SentIsBehind(s, d, reply);
    StepOnwards(s, d, Send(reply));
    SendAccepts(s, d, reply);
    forall id | id in t.written
      ensures Behind(t, t.written[id].0, id) && ((t.written[id].0, id) in t.accepted <==> t.written[id].1.AckLost?)
    {
      StaysBehind(s, t, d, t.written[id].0, id);
    }
  }

  lemma OtherStepKeepsPrints(s: State, d: nat, a: Action)
    requires PrintsSound(s) && !a.Send?
    ensures PrintsSound(Step(s, d, a))
  {
    var t := Step(s, d, a);
    StepOnwards(s, d, a);
    assert t.prints == s.prints && t.accepted == s.accepted;
    forall k | 0 <= k < |t.prints| ensures Behind(t, t.prints[k].0, t.prints[k].1) {
      StaysBehind(s, t, d, t.prints[k].0, t.prints[k].1);
    }
  }

  /** What a send does to the stage of the row is done there; every other step leaves the stage of a row sound. */
  lemma OtherStepKeepsStages(s: State, d: nat, a: Action)
    requires DaemonsApart(s) && StagesSound(s) && !a.Send?
    ensures StagesSound(Step(s, d, a))
  {
    var t := Step(s, d, a);
    StepOnwards(s, d, a);
    assert t.accepted == s.accepted;
    forall e | e in t.daemons && AtRow(t, t.daemons[e])
      ensures match t.daemons[e].stage
        case Sending => true
        case Acking => (t.daemons[e].pass, RowAt(t, t.daemons[e]).id) in t.accepted
        case Failing(cause) => (t.daemons[e].pass, RowAt(t, t.daemons[e]).id) in t.accepted <==> cause.AckLost?
    {
      if e != d { assert PhaseOf(t, e) == PhaseOf(s, e); }
    }
  }

  lemma OtherStepKeepsMarks(s: State, d: nat, a: Action)
    requires DaemonsApart(s) && StagesSound(s) && MarksSound(s) && !a.Send?
    ensures MarksSound(Step(s, d, a))
  {}

  /** A step writes off at most the row of the daemon that takes it, for the cause it is at. */
  lemma StepWrites(s: State, d: nat, a: Action)
    requires !a.Send?
    ensures var t, p := Step(s, d, a), PhaseOf(s, d);
            && t.accepted == s.accepted
            && (t.written == s.written
                || (AtRow(s, p) && p.stage.Failing?
                    && t.written == s.written[RowAt(s, p).id := (p.pass, p.stage.cause)]))
  {}

  lemma FailingRowIsBehind(s: State, d: nat)
    requires DaemonsApart(s) && PassesInOrder(s) && AtRow(s, PhaseOf(s, d)) && PhaseOf(s, d).stage.Failing?
    ensures Behind(s, PhaseOf(s, d).pass, RowAt(s, PhaseOf(s, d)).id)
  {
    var p := PhaseOf(s, d);
    assert s.passes[p.pass][p.next].id == RowAt(s, p).id;
  }

  lemma OtherStepKeepsWritten(s: State, d: nat, a: Action)
    requires DaemonsApart(s) && StagesSound(s) && WrittenSound(s) && PassesInOrder(s) && !a.Send?
    ensures WrittenSound(Step(s, d, a))
  {
    hide Step, Behind;
    var t, p := Step(s, d, a), PhaseOf(s, d);
    StepOnwards(s, d, a);
    StepWrites(s, d, a);
    if AtRow(s, p) && p.stage.Failing? { FailingRowIsBehind(s, d); }
    forall id | id in t.written
      ensures Behind(t, t.written[id].0, id) && ((t.written[id].0, id) in t.accepted <==> t.written[id].1.AckLost?)
    {
      assert Behind(s, t.written[id].0, id);
      StaysBehind(s, t, d, t.written[id].0, id);
    }
  }

  lemma StepKeepsInv(s: State, first: map<int, Status>, d: nat, a: Action)
    requires Inv(s, first)
    ensures Inv(Step(s, d, a), first)
  {
    StepKeepsPasses(s, d, a);
    StepKeepsDaemonsApart(s, d, a);
    StepKeepsLabels(s, first, d, a);
    if !a.Send? {
      OtherStepKeepsPrints(s, d, a);
      OtherStepKeepsStages(s, d, a);
      OtherStepKeepsMarks(s, d, a);
      OtherStepKeepsWritten(s, d, a);
    } else if AtRow(s, PhaseOf(s, d)) && PhaseOf(s, d).stage.Sending? {
      SendKeepsPrints(s, d, a.send);
      SendKeepsStages(s, d, a.send);
      SendKeepsMarks(s, d, a.send);
      SendKeepsWritten(s, d, a.send);
    }
  }

  lemma {:induction false} RunKeepsInv(first: map<int, Status>, steps: seq<(nat, Action)>)
    ensures Inv(Run(Start(first), steps), first)
  {
    if steps != [] {
      var n := |steps| - 1;
      RunKeepsInv(first, steps[..n]);
      StepKeepsInv(Run(Start(first), steps[..n]), first, steps[n].0, steps[n].1);
    }
  }

  // ------------------------------------------------------------------ what every run keeps

  /** Physical copies of one label. */
  function Copies(prints: seq<(nat, int)>, id: int): nat
  {
    if prints == [] then 0
    else var n := |prints| - 1; Copies(prints[..n], id) + if prints[n].1 == id then 1 else 0
  }

  lemma {:induction false} CopiesOf(prints: seq<(nat, int)>, pass: nat, id: int)
    requires (pass, id) in prints
    ensures Copies(prints, id) >= 1
  {
    var n := |prints| - 1;
    if prints[n] != (pass, id) { CopiesOf(prints[..n], pass, id); }
  }

  /**
   A label that became printed came out of the printer at least once, in the very pass whose
   acknowledgement marked it, and that pass had fetched it.
   */
  lemma PrintedCameOut(first: map<int, Status>, steps: seq<(nat, Action)>, id: int)
    requires var s := Run(Start(first), steps);
             id in s.labels && s.labels[id] == Printed && (id in first ==> first[id] != Printed)
    ensures var s := Run(Start(first), steps);
            && id in s.marked && (s.marked[id], id) in s.accepted && Copies(s.prints, id) >= 1
            && s.marked[id] < |s.passes| && Fetched(s.passes[s.marked[id]], id)
  {
    RunKeepsInv(first, steps);
    var s := Run(Start(first), steps);
    var k :| 0 <= k < |s.prints| && s.prints[k] == (s.marked[id], id);
    assert Behind(s, s.prints[k].0, s.prints[k].1);
    CopiesOf(s.prints, s.marked[id], id);
  }

  function PollsReturning(s: State, id: int): set<nat>
  {
    set p | 0 <= p < |s.passes| && Fetched(s.passes[p], id)
  }

  function PassesPrinting(prints: seq<(nat, int)>, id: int): set<nat>
  {
    set k | 0 <= k < |prints| && prints[k].1 == id :: prints[k].0
  }

  lemma PassesPrintingNext(prints: seq<(nat, int)>, c: (nat, int), id: int)
    ensures PassesPrinting(prints + [c], id) == PassesPrinting(prints, id) + if c.1 == id then {c.0} else {}
  {
    var more := prints + [c];
    assert more[|prints|] == c && forall k :: 0 <= k < |prints| ==> more[k] == prints[k];
    forall p | p in PassesPrinting(more, id) && p !in PassesPrinting(prints, id) ensures c == (p, id) {
      var k :| 0 <= k < |more| && more[k].1 == id && more[k].0 == p;
    }
    forall p | p in PassesPrinting(prints, id) ensures p in PassesPrinting(more, id) {
      var k :| 0 <= k < |prints| && prints[k].1 == id && prints[k].0 == p;
      assert more[k] == (p, id);
    }
  }

  lemma LastPrintIsNew(prints: seq<(nat, int)>, n: nat)
    requires |prints| == n + 1 && forall j, k :: 0 <= j < k < |prints| ==> prints[j] != prints[k]
    ensures prints[n].0 !in PassesPrinting(prints[..n], prints[n].1)
  {
    forall k | 0 <= k < n && prints[..n][k].1 == prints[n].1 ensures prints[..n][k].0 != prints[n].0 {
      assert prints[..n][k] == prints[k];
    }
  }

  lemma {:induction false} CopiesCountPasses(prints: seq<(nat, int)>, id: int)
    requires forall j, k :: 0 <= j < k < |prints| ==> prints[j] != prints[k]
    ensures Copies(prints, id) == |PassesPrinting(prints, id)|
  {
    if prints != [] {
      var n := |prints| - 1;
      CopiesCountPasses(prints[..n], id);
      PassesPrintingNext(prints[..n], prints[n], id);
      assert prints[..n] + [prints[n]] == prints;
      LastPrintIsNew(prints, n);
    }
  }

  lemma {:induction false} SubsetIsSmaller(a: set<nat>, b: set<nat>)
    requires a <= b
    ensures |a| <= |b|
    decreases |b|
  {
    if b != {} {
      var x :| x in b;
      SubsetIsSmaller(a - {x}, b - {x});
    }
  }

  /** However often daemons crash and start again, a label has no more copies than polls that returned it. */
  lemma CopiesAtMostPolls(first: map<int, Status>, steps: seq<(nat, Action)>, id: int)
    ensures var s := Run(Start(first), steps); Copies(s.prints, id) <= |PollsReturning(s, id)|
  {
    RunKeepsInv(first, steps);
    var s := Run(Start(first), steps);
    CopiesCountPasses(s.prints, id);
    forall p | p in PassesPrinting(s.prints, id) ensures p in PollsReturning(s, id) {
      var k :| 0 <= k < |s.prints| && s.prints[k].1 == id && s.prints[k].0 == p;
      assert Behind(s, s.prints[k].0, s.prints[k].1);
    }
    SubsetIsSmaller(PassesPrinting(s.prints, id), PollsReturning(s, id));
  }

  /** Daemon d takes the label out of the queue now: it is at that label's row and its acknowledgement gets through. */
  ghost predicate TakesOut(s: State, d: nat, a: Action, id: int)
  {
    var p := PhaseOf(s, d);
    && Queued(s, id) && AtRow(s, p) && RowAt(s, p).id == id
    && ((a.AckPrinted? && p.stage.Acking?) || (a.AckFailed? && p.stage.Failing?))
    && (a.ack.Handled? || a.ack.LostAnswer?)
  }

  lemma LeavesNow(s: State, d: nat, a: Action, id: int)
    requires Queued(s, id) && !Queued(Step(s, d, a), id)
    ensures TakesOut(s, d, a, id)
  {}

  /** Nothing but an acknowledgement, from a pass that had fetched it, takes a label out of the queue. */
  lemma {:induction false} LeavesByItsAck(first: map<int, Status>, steps: seq<(nat, Action)>, j: nat, id: int)
    requires j <= |steps| && Queued(Run(Start(first), steps[..j]), id) && !Queued(Run(Start(first), steps), id)
    ensures exists k :: j <= k < |steps| && TakesOut(Run(Start(first), steps[..k]), steps[k].0, steps[k].1, id)
    decreases |steps|
  {
    assert steps[..|steps|] == steps;
    var n := |steps| - 1;
    if Queued(Run(Start(first), steps[..n]), id) {
      LeavesNow(Run(Start(first), steps[..n]), steps[n].0, steps[n].1, id);
      assert TakesOut(Run(Start(first), steps[..n]), steps[n].0, steps[n].1, id);
    } else {
      assert steps[..n][..j] == steps[..j];
      LeavesByItsAck(first, steps[..n], j, id);
      var k :| j <= k < n && TakesOut(Run(Start(first), steps[..n][..k]), steps[..n][k].0, steps[..n][k].1, id);
      assert steps[..n][..k] == steps[..k];
    }
  }

  /** At step k a daemon at this label's row in this pass says it is printed, and gets no answer. */
  ghost predicate AckUnanswered(s: State, steps: seq<(nat, Action)>, k: nat, pass: nat, id: int)
  {
    && k < |steps| && (steps[k].1 == AckPrinted(LostRequest) || steps[k].1 == AckPrinted(LostAnswer))
    && var before := Run(s, steps[..k]);
    && var p := PhaseOf(before, steps[k].0);
    && AtRow(before, p) && p.stage.Acking? && p.pass == pass && RowAt(before, p).id == id
  }

  /** A daemon comes to report a row it has printed as failed by its own unanswered acknowledgement, and only so. */
  lemma ComesToAckLostIff(s: State, e: nat, a: Action, d: nat)
    ensures var p, q := PhaseOf(s, d), PhaseOf(Step(s, e, a), d);
            q != p && q.Working? && q.stage == Failing(AckLost) <==>
              && e == d && AtRow(s, p) && p.stage.Acking?
              && (a == AckPrinted(LostRequest) || a == AckPrinted(LostAnswer))
    ensures var p, q := PhaseOf(s, d), PhaseOf(Step(s, e, a), d);
            q != p && q.Working? && q.stage == Failing(AckLost) ==> q.pass == p.pass && q.next == p.next
  {}

  /** Over every run: a daemon at a row it printed and is to report as failed got no answer to its own "printed". */
  lemma {:induction false} AckLostMeansUnanswered(first: map<int, Status>, steps: seq<(nat, Action)>, d: nat)
    returns (k: nat)
    requires var t := Run(Start(first), steps); AtRow(t, PhaseOf(t, d)) && PhaseOf(t, d).stage == Failing(AckLost)
    ensures var t := Run(Start(first), steps);
            AckUnanswered(Start(first), steps, k, PhaseOf(t, d).pass, RowAt(t, PhaseOf(t, d)).id) && steps[k].0 == d
  {
    hide Step;
    var n := |steps| - 1;
    var before := Run(Start(first), steps[..n]);
    RunKeepsInv(first, steps[..n]);
    StepOnwards(before, steps[n].0, steps[n].1);
    if PhaseOf(before, d) == PhaseOf(Run(Start(first), steps), d) {
      k := AckLostMeansUnanswered(first, steps[..n], d);
      assert steps[..n][..k] == steps[..k];
    } else {
      ComesToAckLostIff(before, steps[n].0, steps[n].1, d);
      k := n;
    }
  }

  /** At step w the pass of the daemon that takes it writes this label off. */
  ghost predicate WritesOff(s: State, steps: seq<(nat, Action)>, w: nat, id: int)
  {
    w < |steps| && steps[w].1.AckFailed? && TakesOut(Run(s, steps[..w]), steps[w].0, steps[w].1, id)
  }

  /** The books say which pass wrote a label off, and in what stage. */
  lemma {:induction false} WrittenAtItsStep(first: map<int, Status>, steps: seq<(nat, Action)>, id: int)
    returns (w: nat)
    requires id in Run(Start(first), steps).written
    ensures WritesOff(Start(first), steps, w, id)
    ensures var p := PhaseOf(Run(Start(first), steps[..w]), steps[w].0);
            p.stage.Failing? && Run(Start(first), steps).written[id] == (p.pass, p.stage.cause)
  {
    hide Step;
    var n := |steps| - 1;
    var before := Run(Start(first), steps[..n]);
    StepWritesOff(before, steps[n].0, steps[n].1, id);
    if id in before.written && Run(Start(first), steps).written[id] == before.written[id] {
      w := WrittenAtItsStep(first, steps[..n], id);
      assert steps[..n][..w] == steps[..w];
    } else {
      w := n;
    }
  }

  lemma StepWritesOff(s: State, d: nat, a: Action, id: int)
    ensures var t, p := Step(s, d, a), PhaseOf(s, d);
            id in t.written ==>
              || (id in s.written && t.written[id] == s.written[id])
              || (&& a.AckFailed? && TakesOut(s, d, a, id) && p.stage.Failing?
                  && t.written[id] == (p.pass, p.stage.cause))
  {}

  lemma StepAccepts(s: State, d: nat, a: Action)
    ensures s.accepted <= Step(s, d, a).accepted
  {}

  lemma {:induction false} AcceptedGrows(s: State, steps: seq<(nat, Action)>, k: nat)
    requires k <= |steps|
    ensures Run(s, steps[..k]).accepted <= Run(s, steps).accepted
    decreases |steps|
  {
    hide Step;
    if k == |steps| {
      assert steps[..k] == steps;
    } else {
      var n := |steps| - 1;
      assert steps[..n][..k] == steps[..k];
      AcceptedGrows(s, steps[..n], k);
      StepAccepts(Run(s, steps[..n]), steps[n].0, steps[n].1);
    }
  }

  lemma UnansweredWasAccepted(first: map<int, Status>, steps: seq<(nat, Action)>, k: nat, pass: nat, id: int)
    requires AckUnanswered(Start(first), steps, k, pass, id)
    ensures (pass, id) in Run(Start(first), steps).accepted
  {
    hide Step;
    RunKeepsInv(first, steps[..k]);
    assert StagesSound(Run(Start(first), steps[..k]));
    AcceptedGrows(Start(first), steps, k);
  }

  /**
   A damaged label was written off at some step, and the printer had reported it done in the pass that did so exactly
   when that pass had got no answer to its own "printed".
   */
  lemma WritingPassSawItDoneIffAckLost(first: map<int, Status>, steps: seq<(nat, Action)>, id: int)
    returns (w: nat)
    requires var s := Run(Start(first), steps);
             id in s.labels && s.labels[id] == Damaged && (id in first ==> first[id] != Damaged)
    ensures WritesOff(Start(first), steps, w, id)
    ensures var pass := PhaseOf(Run(Start(first), steps[..w]), steps[w].0).pass;
            (pass, id) in Run(Start(first), steps).accepted <==>
              exists k: nat :: AckUnanswered(Start(first), steps, k, pass, id)
  {
    hide Step;
    RunKeepsInv(first, steps);
    w := WrittenAtItsStep(first, steps, id);
    assert WrittenSound(Run(Start(first), steps));
    var s, start := Run(Start(first), steps), Start(first);
    var p := PhaseOf(Run(start, steps[..w]), steps[w].0);
    if p.stage == Failing(AckLost) {
      var k := AckLostMeansUnanswered(first, steps[..w], steps[w].0);
      assert steps[..w][..k] == steps[..k];
      assert AckUnanswered(start, steps, k, p.pass, id);
    }
    forall k: nat | AckUnanswered(start, steps, k, p.pass, id) ensures (p.pass, id) in s.accepted {
      UnansweredWasAccepted(first, steps, k, p.pass, id);
    }
  }

  lemma RunSnoc(s: State, steps: seq<(nat, Action)>, d: nat, a: Action)
    ensures Run(s, steps + [(d, a)]) == Step(Run(s, steps), d, a)
  {
    assert (steps + [(d, a)])[..|steps|] == steps;
  }

  ghost predicate Reaches(s: State, t: State) { exists steps :: Run(s, steps) == t }

  lemma ReachStep(s: State, t: State, d: nat, a: Action)
    requires Reaches(s, t)
    ensures Reaches(s, Step(t, d, a))
  {
    var steps :| Run(s, steps) == t;
    RunSnoc(s, steps, d, a);
  }

  /** Daemon 0 has fetched the one label and is about to print it. */
  lemma OneLabelFetched(row: Row)
    requires row == Row(1, Png)
    ensures Reaches(Start(map[1 := Generated]),
                    State(map[1 := Generated], [[row]], [], {}, map[], map[], map[0 := Working(0, 0, Sending)]))
  {
    var s := Start(map[1 := Generated]);
    assert Run(s, []) == s;
    ReachStep(s, s, 0, LogIn);
    var loggedIn := s.(daemons := map[0 := Idle]);
    assert Step(s, 0, LogIn) == loggedIn;
    ReachStep(s, loggedIn, 0, Poll([row]));
    assert Listed(loggedIn, [row]);
  }

  /** And then it has printed it and is about to say so. */
  lemma OneCopySent(row: Row)
    requires row == Row(1, Png)
    ensures Reaches(Start(map[1 := Generated]),
                    State(map[1 := Generated], [[row]], [(0, 1)], {(0, 1)}, map[], map[],
                        map[0 := Working(0, 0, Acking)]))
  {
    OneLabelFetched(row);
    var s := Start(map[1 := Generated]);
    var polled := State(map[1 := Generated], [[row]], [], {}, map[], map[], map[0 := Working(0, 0, Sending)]);
    ReachStep(s, polled, 0, Send(Accepted));
  }

  // ------------------------------------------------------------------ one pass, as the daemon runs it

  /** What the daemon meets at one row. */
  datatype Luck = Luck(send: SendReply, printedAck: AckReply, failedAck: AckReply)

  datatype PollReply = Unauthorised(token: Option<string>) | PollFailed | Rows(rows: seq<Row>)

  /**
   Where handling a row takes its label: to printed when that acknowledgement gets through, to damaged when only the
   other does; the spool takes no notice of either once another pass has settled the label.
   */
  function Settled(was: Status, row: Row, luck: Luck): Status
  {
    var wentWell := row.image.Png? && luck.send.Accepted?;
    if wentWell && (luck.printedAck.Handled? || luck.printedAck.LostAnswer?) then
      if was.Generated? || was.Reprinted? then Printed else was
    else if wentWell && !luck.printedAck.LostRequest? then was
    else if luck.failedAck.Handled? || luck.failedAck.LostAnswer? then
      if was.Generated? then Damaged else was
    else was
  }

  predicate ComesOut(row: Row, luck: Luck) { row.image.Png? && (luck.send.Accepted? || luck.send.printed) }

  /** The copies a pass makes, in order. */
  function CopiesMade(pass: nat, rows: seq<Row>, luck: seq<Luck>): seq<(nat, int)>
    requires |rows| == |luck|
  {
    if rows == [] then []
    else
      var n := |rows| - 1;
      CopiesMade(pass, rows[..n], luck[..n]) + if ComesOut(rows[n], luck[n]) then [(pass, rows[n].id)] else []
  }

  /** What a pass leaves of the labels when no other daemon is at work. */
  function SettledLabels(labels: map<int, Status>, rows: seq<Row>, luck: seq<Luck>): map<int, Status>
    requires |rows| == |luck|
  {
    if rows == [] then labels
    else
      var n := |rows| - 1;
      SettledLabels(labels, rows[..n], luck[..n])[rows[n].id := Settled(Generated, rows[n], luck[n])]
  }

  predicate Distinct(rows: seq<Row>) { forall i, j :: 0 <= i < j < |rows| ==> rows[i].id != rows[j].id }

  /** Every row of a pass is settled by its own luck, and no other label changes. */
  lemma {:induction false} EachRowSettled(labels: map<int, Status>, rows: seq<Row>, luck: seq<Luck>, id: int)
    requires |rows| == |luck| && Distinct(rows)
    ensures var after := SettledLabels(labels, rows, luck);
            && (forall i :: 0 <= i < |rows| && rows[i].id == id ==>
                id in after && after[id] == Settled(Generated, rows[i], luck[i]))
            && (!Fetched(rows, id) ==> (id in after <==> id in labels) && (id in after ==> after[id] == labels[id]))
  {
    if rows != [] {
      var n := |rows| - 1;
      EachRowSettled(labels, rows[..n], luck[..n], id);
      assert forall i :: 0 <= i < n ==> rows[..n][i] == rows[i] && luck[..n][i] == luck[i];
    }
  }

  lemma CopiesJoin(a: seq<(nat, int)>, c: (nat, int), id: int)
    ensures Copies(a + [c], id) == Copies(a, id) + if c.1 == id then 1 else 0
  {
    assert (a + [c])[..|a|] == a;
  }

  /** A pass prints each label it fetched once or not at all, as its own luck says, and no other label. */
  lemma {:induction false} OneCopyPerRow(pass: nat, rows: seq<Row>, luck: seq<Luck>, id: int)
    requires |rows| == |luck| && Distinct(rows)
    ensures var copies := Copies(CopiesMade(pass, rows, luck), id);
            && (forall i :: 0 <= i < |rows| && rows[i].id == id ==>
                copies == if ComesOut(rows[i], luck[i]) then 1 else 0)
            && (!Fetched(rows, id) ==> copies == 0)
  {
    if rows != [] {
      var n := |rows| - 1;
      OneCopyPerRow(pass, rows[..n], luck[..n], id);
      CopiesJoin(CopiesMade(pass, rows[..n], luck[..n]), (pass, rows[n].id), id);
      assert forall i :: 0 <= i < n ==> rows[..n][i] == rows[i] && luck[..n][i] == luck[i];
      assert CopiesMade(pass, rows[..n], luck[..n]) + [] == CopiesMade(pass, rows[..n], luck[..n]);
    }
  }

  // ------------------------------------------------------------------ while others are at work

  predicate OthersOnly(steps: seq<(nat, Action)>, d: nat) { forall i :: 0 <= i < |steps| ==> steps[i].0 != d }

  /** What others do before each of the three calls that handling a row may make. */
  datatype Pauses = Pauses(send: seq<(nat, Action)>, printed: seq<(nat, Action)>, failed: seq<(nat, Action)>)

  const NO_PAUSES := Pauses([], [], [])

  predicate OthersPause(p: Pauses, d: nat)
  {
    OthersOnly(p.send, d) && OthersOnly(p.printed, d) && OthersOnly(p.failed, d)
  }

  /** The copies one pass made. */
  function MadeBy(prints: seq<(nat, int)>, pass: nat): seq<(nat, int)>
  {
    if prints == [] then []
    else var n := |prints| - 1; MadeBy(prints[..n], pass) + if prints[n].0 == pass then [prints[n]] else []
  }

  lemma MadeByJoin(prints: seq<(nat, int)>, c: (nat, int), pass: nat)
    ensures MadeBy(prints + [c], pass) == MadeBy(prints, pass) + if c.0 == pass then [c] else []
  {
    assert (prints + [c])[..|prints|] == prints;
  }

  /** Copies come from polls that were made. */
  ghost predicate PassesKnown(s: State) { forall k :: 0 <= k < |s.prints| ==> s.prints[k].0 < |s.passes| }

  lemma NothingMadeYet(s: State)
    requires PassesKnown(s)
    ensures MadeBy(s.prints, |s.passes|) == []
  {
    NothingMadeIn(s.prints, |s.passes|);
  }

  lemma {:induction false} NothingMadeIn(prints: seq<(nat, int)>, pass: nat)
    requires forall k :: 0 <= k < |prints| ==> prints[k].0 < pass
    ensures MadeBy(prints, pass) == []
  {
    if prints != [] { NothingMadeIn(prints[..|prints| - 1], pass); }
  }

  /** Labels stay known, and none comes back into the queue. */
  ghost predicate Keeps(s: State, t: State)
  {
    && (forall id :: id in s.labels ==> id in t.labels)
    && (forall id :: id in s.labels && !Queued(s, id) ==> !Queued(t, id))
  }

  /** What the others leave to a daemon at work: its place, its rows, and the copies of its own pass. */
  ghost predicate Leaves(s: State, t: State, d: nat)
  {
    && DaemonsApart(t) && PhaseOf(t, d) == PhaseOf(s, d) && s.passes <= t.passes && Keeps(s, t)
    && (PhaseOf(s, d).Working? ==> MadeBy(t.prints, PhaseOf(s, d).pass) == MadeBy(s.prints, PhaseOf(s, d).pass))
  }

  /** A step adds at most one copy, by the pass of the daemon that takes it. */
  lemma StepPrints(s: State, e: nat, a: Action)
    ensures var t, p := Step(s, e, a), PhaseOf(s, e);
            t.prints == s.prints || (AtRow(s, p) && t.prints == s.prints + [(p.pass, RowAt(s, p).id)])
  {}

  lemma OtherLeaves(s: State, e: nat, a: Action, d: nat)
    requires DaemonsApart(s) && e != d
    ensures Leaves(s, Step(s, e, a), d)
  {
    hide Step, Keeps;
    StepKeepsDaemonsApart(s, e, a);
    StepOnwards(s, e, a);
    StepPrints(s, e, a);
    OtherKeeps(s, e, a);
    var p := PhaseOf(s, e);
    if AtRow(s, p) && PhaseOf(s, d).Working? {
      assert p.pass != PhaseOf(s, d).pass;
      MadeByJoin(s.prints, (p.pass, RowAt(s, p).id), PhaseOf(s, d).pass);
    }
  }

  lemma OtherKeeps(s: State, e: nat, a: Action)
    ensures Keeps(s, Step(s, e, a))
  {}

  lemma {:induction false} OthersLeave(s: State, steps: seq<(nat, Action)>, d: nat)
    requires DaemonsApart(s) && OthersOnly(steps, d)
    ensures Leaves(s, Run(s, steps), d)
  {
    if steps != [] {
      var n := |steps| - 1;
      OthersLeave(s, steps[..n], d);
      OtherLeaves(Run(s, steps[..n]), steps[n].0, steps[n].1, d);
    }
  }

  lemma {:induction false} ReachRun(s: State, t: State, steps: seq<(nat, Action)>)
    requires Reaches(s, t)
    ensures Reaches(s, Run(t, steps))
  {
    if steps != [] {
      var n := |steps| - 1;
      ReachRun(s, t, steps[..n]);
      ReachStep(s, Run(t, steps[..n]), steps[n].0, steps[n].1);
    }
  }

  /** Where the call to the printer, or the look at the image, leads. */
  function FirstAck(row: Row, luck: Luck): Stage
  {
    if row.image != Png then Failing(BadImage) else if luck.send.Accepted? then Acking else Failing(PrinterError)
  }

  /** Labels stay known and out of the queue, rows stay where they are, and the pass makes no copy. */
  ghost predicate Goes(s: State, t: State, pass: nat)
  {
    DaemonsApart(t) && s.passes <= t.passes && Keeps(s, t) && MadeBy(t.prints, pass) == MadeBy(s.prints, pass)
  }

  lemma GoesOn(s: State, t: State, u: State, pass: nat)
    requires Goes(s, t, pass) && Goes(t, u, pass)
    ensures Goes(s, u, pass)
  {
    hide DaemonsApart, MadeBy, Queued;
  }

  lemma StaysOut(s: State, t: State, pass: nat, id: int)
    requires Goes(s, t, pass) && id in s.labels
    ensures id in t.labels && (!Queued(s, id) ==> !Queued(t, id))
  {}

  lemma KeepsOn(s: State, t: State, u: State)
    requires s.labels == t.labels && Keeps(t, u)
    ensures Keeps(s, u)
  {}

  /** Nothing but the labels moved, and they as said. */
  ghost predicate OnlyLabels(s: State, t: State, labels: map<int, Status>)
  {
    t.passes == s.passes && t.prints == s.prints && t.labels == labels
  }

  function PrintedLabels(labels: map<int, Status>, id: int, ack: AckReply): map<int, Status>
    requires id in labels
  {
    var marks := (ack.Handled? || ack.LostAnswer?) && (labels[id].Generated? || labels[id].Reprinted?);
    if marks then labels[id := Printed] else labels
  }

  function FailedLabels(labels: map<int, Status>, id: int, ack: AckReply): map<int, Status>
    requires id in labels
  {
    if (ack.Handled? || ack.LostAnswer?) && labels[id].Generated? then labels[id := Damaged] else labels
  }

  lemma PrintedGoes(s: State, d: nat, pass: nat, next: nat, row: Row, ack: AckReply)
    requires DaemonsApart(s) && PhaseOf(s, d) == Working(pass, next, Acking) && AtRow(s, PhaseOf(s, d))
    requires RowAt(s, PhaseOf(s, d)) == row && row.id in s.labels
    ensures var t := Step(s, d, AckPrinted(ack));
            && Goes(s, t, pass) && ((ack.Handled? || ack.LostAnswer?) ==> !Queued(t, row.id))
            && OnlyLabels(s, t, PrintedLabels(s.labels, row.id, ack))
            && PhaseOf(t, d)
                 == if ack.LostRequest? || ack.LostAnswer? then Working(pass, next, Failing(AckLost))
                    else AtOrIdle(s, pass, next + 1)
  {
    StepKeepsDaemonsApart(s, d, AckPrinted(ack));
  }

  lemma FailedGoes(s: State, d: nat, pass: nat, next: nat, row: Row, cause: Cause, ack: AckReply)
    requires DaemonsApart(s) && PhaseOf(s, d) == Working(pass, next, Failing(cause)) && AtRow(s, PhaseOf(s, d))
    requires RowAt(s, PhaseOf(s, d)) == row && row.id in s.labels
    ensures var t := Step(s, d, AckFailed(ack));
            && Goes(s, t, pass) && ((ack.Handled? || ack.LostAnswer?) ==> !Queued(t, row.id))
            && OnlyLabels(s, t, FailedLabels(s.labels, row.id, ack))
            && PhaseOf(t, d) == AtOrIdle(s, pass, next + 1)
  {
    StepKeepsDaemonsApart(s, d, AckFailed(ack));
  }

  /** Handling a row does to its label what its one or two acknowledgements do. */
  lemma AcksSettle(labels: map<int, Status>, row: Row, luck: Luck)
    requires row.id in labels
    ensures var wentWell := row.image.Png? && luck.send.Accepted?;
            var printed := if wentWell then PrintedLabels(labels, row.id, luck.printedAck) else labels;
            (if wentWell && (luck.printedAck.Handled? || luck.printedAck.Refused?) then printed
             else FailedLabels(printed, row.id, luck.failedAck))
            == labels[row.id := Settled(labels[row.id], row, luck)]
  {}

  lemma RefusedSettlesNothing(labels: map<int, Status>, row: Row, luck: Luck)
    requires row.id in labels && row.image.Png? && luck.send.Accepted? && luck.printedAck == Refused
    ensures labels[row.id := Settled(labels[row.id], row, luck)] == labels
  {
    assert Settled(labels[row.id], row, luck) == labels[row.id];
  }

  /** From s to t a daemon has handled one row of its pass, perhaps alone. */
  ghost predicate RowDone(s: State, t: State, pass: nat, row: Row, luck: Luck, alone: bool)
  {
    && DaemonsApart(t) && s.passes <= t.passes && Keeps(s, t)
    && MadeBy(t.prints, pass) == MadeBy(s.prints, pass) + (if ComesOut(row, luck) then [(pass, row.id)] else [])
    && (Settled(Generated, row, luck) != Generated ==> !Queued(t, row.id))
    && (alone ==>
          && t.passes == s.passes
          && row.id in s.labels && t.labels == s.labels[row.id := Settled(s.labels[row.id], row, luck)]
          && t.prints == s.prints + if ComesOut(row, luck) then [(pass, row.id)] else [])
  }

  /** From s, before the poll, to t a daemon has handled the first i rows of its pass, perhaps alone. */
  ghost predicate RowsDone(s: State, t: State, rows: seq<Row>, luck: seq<Luck>, i: nat, alone: bool)
    requires i <= |rows| == |luck|
  {
    var pass := |s.passes|;
    && DaemonsApart(t) && s.passes + [rows] <= t.passes && Keeps(s, t)
    && MadeBy(t.prints, pass) == CopiesMade(pass, rows[..i], luck[..i])
    && (forall j :: 0 <= j < i && Settled(Generated, rows[j], luck[j]) != Generated ==> !Queued(t, rows[j].id))
    && (alone ==>
          && t.passes == s.passes + [rows]
          && t.labels == SettledLabels(s.labels, rows[..i], luck[..i])
          && t.prints == s.prints + CopiesMade(pass, rows[..i], luck[..i]))
  }

  lemma RowDoneAlone(s: State, t: State, pass: nat, row: Row, luck: Luck, quiet: bool, alone: bool)
    requires RowDone(s, t, pass, row, luck, quiet) && (alone ==> quiet)
    ensures RowDone(s, t, pass, row, luck, alone)
  {}

  lemma RowsDoneNext(s: State, t: State, u: State, rows: seq<Row>, luck: seq<Luck>, i: nat, alone: bool)
    requires i < |rows| == |luck| && Listed(s, rows)
    requires RowsDone(s, t, rows, luck, i, alone) && RowDone(t, u, |s.passes|, rows[i], luck[i], alone)
    ensures RowsDone(s, u, rows, luck, i + 1, alone)
  {
    hide DaemonsApart, MadeBy, Settled, ComesOut;
    assert rows[..i + 1][..i] == rows[..i] && luck[..i + 1][..i] == luck[..i];
    if alone { EachRowSettled(s.labels, rows[..i], luck[..i], rows[i].id); }
    forall j | 0 <= j < i && Settled(Generated, rows[j], luck[j]) != Generated ensures !Queued(u, rows[j].id) {
      assert Queued(s, rows[j].id);
    }
  }

  lemma NoRowDone(s: State, d: nat, rows: seq<Row>, luck: seq<Luck>, alone: bool)
    requires PhaseOf(s, d).Idle? && Listed(s, rows) && |luck| == |rows| && DaemonsApart(s) && PassesKnown(s)
    ensures var t := Step(s, d, Poll(rows));
            RowsDone(s, t, rows, luck, 0, alone) && PhaseOf(t, d) == AtOrIdle(t, |s.passes|, 0)
  {
    StepKeepsDaemonsApart(s, d, Poll(rows));
    NothingMadeYet(s);
  }

  /** The next row is there, and its label known. */
  lemma NextRowThere(s: State, t: State, rows: seq<Row>, luck: seq<Luck>, i: nat, alone: bool)
    requires i <= |rows| == |luck| && Listed(s, rows) && RowsDone(s, t, rows, luck, i, alone)
    ensures |s.passes| < |t.passes| && t.passes[|s.passes|] == rows && DaemonsApart(t)
    ensures i < |rows| ==> rows[i].id in t.labels
  {
    assert (s.passes + [rows])[|s.passes|] == rows;
    assert i < |rows| ==> Queued(s, rows[i].id);
  }

  /** A request a daemon sends about a row: to the printer, or to the spool. */
  datatype Request = PrintIt(id: int) | SayPrinted(id: int) | SayFailed(id: int)

  /** The acknowledgements that one row takes: an answered "printed" is the last word, whatever the answer. */
  function AcksFor(row: Row, luck: Luck): seq<Request>
  {
    if row.image != Png || luck.send.Rejected? then [SayFailed(row.id)]
    else if luck.printedAck.Handled? || luck.printedAck.Refused? then [SayPrinted(row.id)]
    else [SayPrinted(row.id), SayFailed(row.id)]
  }

  /** The requests that one row takes, in order: nothing but a PNG goes to the printer. */
  function RequestsFor(row: Row, luck: Luck): seq<Request>
  {
    (if row.image.Png? then [PrintIt(row.id)] else []) + AcksFor(row, luck)
  }

  function RequestsForAll(rows: seq<Row>, luck: seq<Luck>): seq<Request>
    requires |rows| == |luck|
  {
    if rows == [] then []
    else var n := |rows| - 1; RequestsForAll(rows[..n], luck[..n]) + RequestsFor(rows[n], luck[n])
  }

  lemma RequestsNext(before: seq<Request>, rows: seq<Row>, luck: seq<Luck>, i: nat)
    requires i < |rows| == |luck|
    ensures before + RequestsForAll(rows[..i + 1], luck[..i + 1])
            == before + RequestsForAll(rows[..i], luck[..i]) + RequestsFor(rows[i], luck[i])
  {
    assert rows[..i + 1][..i] == rows[..i] && luck[..i + 1][..i] == luck[..i];
  }

  /** The spool and the printer, as all daemons see them. */
  class Shop {
    var now: State

    constructor (labels: map<int, Status>)
      ensures now == Start(labels)
    {
      now := Start(labels);
    }
  }

  class Daemon {
    const number: nat
    const shop: Shop
    var accessToken: Option<string>
    var requests: seq<Request>

    constructor (number: nat, shop: Shop)
      ensures this.number == number && this.shop == shop && accessToken == None && requests == []
    {
      this.number, this.shop, accessToken, requests := number, shop, None, [];
    }

    method Take(ghost start: State, a: Action)
      requires Reaches(start, shop.now)
      modifies shop
      ensures shop.now == Step(old(shop.now), number, a)
      ensures old(DaemonsApart(shop.now)) ==> DaemonsApart(shop.now)
      ensures Reaches(start, shop.now)
    {
      if DaemonsApart(shop.now) { StepKeepsDaemonsApart(shop.now, number, a); }
      ReachStep(start, shop.now, number, a);
      shop.now := Step(shop.now, number, a);
    }

    ghost predicate At(pass: nat, next: nat, stage: Stage)
      reads this, shop
    {
      PhaseOf(shop.now, number) == Working(pass, next, stage) && AtRow(shop.now, Working(pass, next, stage))
    }

    /** sendToPrinter, and where its exception leads. */
    method SendToPrinter(ghost start: State, pass: nat, next: nat, send: SendReply)
      requires Reaches(start, shop.now)
      requires At(pass, next, Sending)
      modifies this`requests, shop
      ensures var row := old(shop.now.passes[pass][next]);
              && requests == old(requests) + (if row.image.Png? then [PrintIt(row.id)] else [])
              && shop.now.passes == old(shop.now.passes) && shop.now.labels == old(shop.now.labels)
              && At(pass, next, if row.image != Png then Failing(BadImage)
                                else if send.Accepted? then Acking else Failing(PrinterError))
              && shop.now.prints == old(shop.now.prints)
                   + if row.image.Png? && (send.Accepted? || send.printed) then [(pass, row.id)] else []
      ensures old(DaemonsApart(shop.now)) ==> DaemonsApart(shop.now)
      ensures Reaches(start, shop.now)
    {
      var row := shop.now.passes[pass][next];
      if row.image.Png? { requests := requests + [PrintIt(row.id)]; }
      Take(start, Send(send));
    }

    /** What the other daemons, and whoever spools labels, do before this one goes on. */
    method Wait(ghost start: State, steps: seq<(nat, Action)>)
      requires Reaches(start, shop.now)
      requires OthersOnly(steps, number) && DaemonsApart(shop.now)
      modifies shop
      ensures Leaves(old(shop.now), shop.now, number)
      ensures steps == [] ==> shop.now == old(shop.now)
      ensures Reaches(start, shop.now)
    {
      OthersLeave(shop.now, steps, number);
      ReachRun(start, shop.now, steps);
      shop.now := Run(shop.now, steps);
    }

    /** POST printed, after a pause; the daemon goes on to the next row on any answer. */
    method PostPrinted(ghost start: State, pass: nat, next: nat, row: Row, ack: AckReply, pause: seq<(nat, Action)>)
      requires Reaches(start, shop.now) && DaemonsApart(shop.now) && OthersOnly(pause, number)
      requires At(pass, next, Acking) && shop.now.passes[pass][next] == row && row.id in shop.now.labels
      modifies this`requests, shop
      ensures requests == old(requests) + [SayPrinted(row.id)]
      ensures Goes(old(shop.now), shop.now, pass) && ((ack.Handled? || ack.LostAnswer?) ==> !Queued(shop.now, row.id))
      ensures pause == [] ==>
                OnlyLabels(old(shop.now), shop.now, PrintedLabels(old(shop.now.labels), row.id, ack))
      ensures if ack.LostRequest? || ack.LostAnswer? then At(pass, next, Failing(AckLost))
              else PhaseOf(shop.now, number) == AtOrIdle(shop.now, pass, next + 1)
      ensures Reaches(start, shop.now)
    {
      hide Step, DaemonsApart, MadeBy, Queued, PrintedLabels, FailedLabels;
      ghost var before := shop.now;
      Wait(start, pause);
      ghost var waited := shop.now;
      assert Goes(before, waited, pass);
      assert waited.passes[pass][next] == row;
      requests := requests + [SayPrinted(row.id)];
      PrintedGoes(waited, number, pass, next, row, ack);
      Take(start, AckPrinted(ack));
      GoesOn(before, waited, shop.now, pass);
    }

    /** POST failed, after a pause; its own exception is only logged. */
    method PostFailed(ghost start: State, pass: nat, next: nat, row: Row, cause: Cause, ack: AckReply,
                      pause: seq<(nat, Action)>)
      requires Reaches(start, shop.now) && DaemonsApart(shop.now) && OthersOnly(pause, number)
      requires At(pass, next, Failing(cause)) && shop.now.passes[pass][next] == row && row.id in shop.now.labels
      modifies this`requests, shop
      ensures requests == old(requests) + [SayFailed(row.id)]
      ensures Goes(old(shop.now), shop.now, pass) && ((ack.Handled? || ack.LostAnswer?) ==> !Queued(shop.now, row.id))
      ensures pause == [] ==>
                OnlyLabels(old(shop.now), shop.now, FailedLabels(old(shop.now.labels), row.id, ack))
      ensures PhaseOf(shop.now, number) == AtOrIdle(shop.now, pass, next + 1)
      ensures Reaches(start, shop.now)
    {
      hide Step, DaemonsApart, MadeBy, Queued, PrintedLabels, FailedLabels;
      ghost var before := shop.now;
      Wait(start, pause);
      ghost var waited := shop.now;
      assert Goes(before, waited, pass);
      assert waited.passes[pass][next] == row;
      requests := requests + [SayFailed(row.id)];
      FailedGoes(waited, number, pass, next, row, cause, ack);
      Take(start, AckFailed(ack));
      GoesOn(before, waited, shop.now, pass);
    }

    /** The acknowledgement of a row, whichever it is, with others at work before each call. */
    method AckRow(ghost start: State, pass: nat, next: nat, row: Row, luck: Luck, pauses: Pauses)
      requires Reaches(start, shop.now) && DaemonsApart(shop.now) && OthersPause(pauses, number)
      requires At(pass, next, FirstAck(row, luck)) && shop.now.passes[pass][next] == row && row.id in shop.now.labels
      modifies this`requests, shop
      ensures requests == old(requests) + AcksFor(row, luck)
      ensures PhaseOf(shop.now, number) == AtOrIdle(shop.now, pass, next + 1)
      ensures Goes(old(shop.now), shop.now, pass)
      ensures Settled(Generated, row, luck) != Generated ==> !Queued(shop.now, row.id)
      ensures pauses == NO_PAUSES ==>
                var labels := old(shop.now.labels);
                OnlyLabels(old(shop.now), shop.now, labels[row.id := Settled(labels[row.id], row, luck)])
      ensures Reaches(start, shop.now)
    {
      hide Keeps, MadeBy, Queued, PrintedLabels, FailedLabels, Step;
      AcksSettle(shop.now.labels, row, luck);
      ghost var before := shop.now;
      if row.image.Png? && luck.send.Accepted? {
        PostPrinted(start, pass, next, row, luck.printedAck, pauses.printed);
        if luck.printedAck.LostRequest? || luck.printedAck.LostAnswer? {
          ghost var posted := shop.now;
          StaysOut(before, posted, pass, row.id);
          PostFailed(start, pass, next, row, AckLost, luck.failedAck, pauses.failed);
          GoesOn(before, posted, shop.now, pass);
          StaysOut(posted, shop.now, pass, row.id);
        }
      } else {
        var cause := if row.image != Png then BadImage else PrinterError;
        PostFailed(start, pass, next, row, cause, luck.failedAck, pauses.failed);
      }
    }

    /** The body of the loop over the rows of a pass. */
    method HandleRow(ghost start: State, pass: nat, next: nat, luck: Luck, pauses: Pauses)
      requires Reaches(start, shop.now) && DaemonsApart(shop.now) && OthersPause(pauses, number)
      requires At(pass, next, Sending) && shop.now.passes[pass][next].id in shop.now.labels
      modifies this`requests, shop
      ensures requests == old(requests) + RequestsFor(old(shop.now.passes)[pass][next], luck)
      ensures pauses == NO_PAUSES && old(shop.now.passes)[pass][next].image.Png?
                && luck.send.Accepted? && luck.printedAck == Refused ==>
                shop.now.labels == old(shop.now.labels)
      ensures PhaseOf(shop.now, number) == AtOrIdle(shop.now, pass, next + 1)
      ensures RowDone(old(shop.now), shop.now, pass, old(shop.now.passes)[pass][next], luck, pauses == NO_PAUSES)
      ensures Reaches(start, shop.now)
    {
      hide Step, Settled, Queued, DaemonsApart, MadeBy, AcksFor, Reaches;
      var row := shop.now.passes[pass][next];
      Wait(start, pauses.send);
      ghost var waited := shop.now;
      SendToPrinter(start, pass, next, luck.send);
      ghost var sent := shop.now;
      MadeByJoin(waited.prints, (pass, row.id), pass);
      assert waited.prints + [] == waited.prints;
      AckRow(start, pass, next, row, luck, pauses);
      KeepsOn(waited, sent, shop.now);
      if row.image.Png? && luck.send.Accepted? && luck.printedAck == Refused {
        RefusedSettlesNothing(waited.labels, row, luck);
      }
    }

    /** The spool answers with rows, and the loop goes over them while others may act before every call. */
    method HandleRows(ghost start: State, rows: seq<Row>, luck: seq<Luck>, pauses: seq<Pauses>)
      requires Reaches(start, shop.now)
      requires PhaseOf(shop.now, number).Idle? && Listed(shop.now, rows) && |luck| == |rows| == |pauses|
      requires DaemonsApart(shop.now) && PassesKnown(shop.now)
      requires forall i :: 0 <= i < |rows| ==> OthersPause(pauses[i], number)
      modifies this`requests, shop
      ensures requests == old(requests) + RequestsForAll(rows, luck)
      ensures PhaseOf(shop.now, number).Idle?
      ensures RowsDone(old(shop.now), shop.now, rows, luck, |rows|,
                       forall i :: 0 <= i < |rows| ==> pauses[i] == NO_PAUSES)
      ensures Reaches(start, shop.now)
    {
      hide RowsDone, RowDone, DaemonsApart, Step, Reaches, RequestsFor;
      ghost var first, alone := shop.now, forall i :: 0 <= i < |rows| ==> pauses[i] == NO_PAUSES;
      var pass, i := |shop.now.passes|, 0;
      NoRowDone(first, number, rows, luck, alone);
      Take(start, Poll(rows));
      while i < |rows|
        invariant i <= |rows| && pass == |first.passes|
        invariant PhaseOf(shop.now, number) == AtOrIdle(shop.now, pass, i)
        invariant RowsDone(first, shop.now, rows, luck, i, alone)
        invariant Reaches(start, shop.now)
        invariant requests == old(requests) + RequestsForAll(rows[..i], luck[..i])
      {
        ghost var before := shop.now;
        RequestsNext(old(requests), rows, luck, i);
        NextRowThere(first, before, rows, luck, i, alone);
        HandleRow(start, pass, i, luck[i], pauses[i]);
        RowDoneAlone(before, shop.now, pass, rows[i], luck[i], pauses[i] == NO_PAUSES, alone);
        RowsDoneNext(first, before, shop.now, rows, luck, i, alone);
        i := i + 1;
      }
      NextRowThere(first, shop.now, rows, luck, i, alone);
      assert rows[..i] == rows && luck[..i] == luck;
    }

    /**
     processQueue: every listed label is handled in order by this daemon's own calls, whatever others do before any of
     them; no failure stops the pass. A refused poll gets a new token, or fails, and touches no label.
     */
    method ProcessQueue(reply: PollReply, luck: seq<Luck>, pauses: seq<Pauses>)
      returns (out: Result<(), string>)
      requires PhaseOf(shop.now, number).Idle? && DaemonsApart(shop.now) && PassesKnown(shop.now)
      requires reply.Rows? ==> Listed(shop.now, reply.rows) && |luck| == |reply.rows| == |pauses|
      requires forall i :: 0 <= i < |pauses| ==> OthersPause(pauses[i], number)
      modifies this, shop
      ensures !reply.Rows? ==> shop.now == old(shop.now) && requests == old(requests)
      ensures reply.Rows? ==> requests == old(requests) + RequestsForAll(reply.rows, luck)
      ensures reply.Unauthorised? ==> accessToken == reply.token && (out.Ok? <==> reply.token.Some?)
      ensures !reply.Unauthorised? ==> accessToken == old(accessToken) && out.Ok?
      ensures PhaseOf(shop.now, number).Idle?
      ensures reply.Rows? ==>
                RowsDone(old(shop.now), shop.now, reply.rows, luck, |luck|,
                         forall i :: 0 <= i < |luck| ==> pauses[i] == NO_PAUSES)
      ensures Reaches(old(shop.now), shop.now)
    {
      assert Run(shop.now, []) == shop.now;
      match reply {
        case Unauthorised(token) =>
          accessToken := token;
          out := if token.Some? then Ok(()) else Err("login failed");
        case PollFailed =>
          out := Ok(());
        case Rows(rows) =>
          HandleRows(shop.now, rows, luck, pauses);
          out := Ok(());
      }
    }
  }
}
