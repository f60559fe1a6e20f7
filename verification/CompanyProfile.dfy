/**
 The memoised, shared request for the company profile (apps/web/src/company.tsx). Callers, answers
 and cache clears interleave in any order.
 */
module CompanyProfile {
  import opened Wrappers

  type Profile = map<string, string>

  /** An answer is good when its status is ok and its body carries a data object. */
  datatype Reply = Good(data: Profile) | Bad

  datatype Event = Call | Complete(id: nat, reply: Reply) | Clear

  /**
   `cached` and `inflight` are the module's two variables, the latter naming the shared request;
   `open` are the requests without an answer yet, `sent` how many were made, `answers` the answers so
   far, and `cut` how many clears came while a request was shared.
   */
  datatype State = State(
    cached: Option<Profile>, inflight: Option<nat>, open: set<nat>, sent: nat, answers: seq<Reply>, cut: nat)

  const Start := State(None, None, {}, 0, [], 0)

  /** The fallback fills in what the answer leaves out. */
  function Profiled(fallback: Profile, reply: Reply): Profile
  {
    match reply
    case Good(data) => fallback + data
    case Bad => fallback
  }

  function Step(fallback: Profile, s: State, e: Event): State
  {
    match e
    case Call =>
      if s.cached.Some? || s.inflight.Some? then s
      else s.(inflight := Some(s.sent), open := s.open + {s.sent}, sent := s.sent + 1)
    case Complete(id, reply) =>
      if id !in s.open then s
      else s.(cached := if reply.Good? then Some(Profiled(fallback, reply)) else s.cached,
              inflight := None, open := s.open - {id}, answers := s.answers + [reply])
    case Clear =>
      s.(cached := None, inflight := None, cut := s.cut + if s.inflight.Some? then 1 else 0)
  }

  function Run(fallback: Profile, s: State, events: seq<Event>): State
  {
    if events == [] then s
    else var n := |events| - 1; Step(fallback, Run(fallback, s, events[..n]), events[n])
  }

  lemma RunSnoc(fallback: Profile, s: State, events: seq<Event>, e: Event)
    ensures Run(fallback, s, events + [e]) == Step(fallback, Run(fallback, s, events), e)
  {
    assert (events + [e])[..|events|] == events;
  }

  function Shared(s: State): nat { if s.inflight.Some? then 1 else 0 }

  /**
   The shared request is open, every other open request was cut loose by a clear, and the memo is somebody's good
   answer.
   */
  ghost predicate Inv(fallback: Profile, s: State)
  {
    && (s.inflight.Some? ==> s.inflight.value in s.open)
    && (forall id :: id in s.open ==> id < s.sent)
    && |s.open| <= s.cut + Shared(s)
    && (s.cached.Some? ==> exists r :: r in s.answers && r.Good? && s.cached.value == fallback + r.data)
    && (s.cached.Some? && s.cut == 0 ==> s.open == {})
  }

  lemma StepKeepsInv(fallback: Profile, s: State, e: Event)
    requires Inv(fallback, s)
    ensures Inv(fallback, Step(fallback, s, e))
  {
    var t := Step(fallback, s, e);
    if e.Complete? && e.id in s.open {
      if e.reply.Good? {
        assert e.reply in t.answers;
      } else if s.cached.Some? {
        var r :| r in s.answers && r.Good? && s.cached.value == fallback + r.data;
        assert r in t.answers;
      }
      if s.cut == 0 && s.inflight.Some? { OnlyOne(s.open, e.id); }
    }
  }

  lemma OnlyOne(a: set<nat>, x: nat)
    requires x in a && |a| <= 1
    ensures a == {x}
  {
    assert |a - {x}| == 0;
  }

  lemma {:induction false} RunKeepsInv(fallback: Profile, events: seq<Event>)
    ensures Inv(fallback, Run(fallback, Start, events))
  {
    if events != [] {
      var n := |events| - 1;
      RunKeepsInv(fallback, events[..n]);
      StepKeepsInv(fallback, Run(fallback, Start, events[..n]), events[n]);
    }
  }

  // ------------------------------------------------------------------ one request at a time

  /** No clear in this run came while a request was shared. */
  predicate ClearsBetween(fallback: Profile, events: seq<Event>)
  {
    forall i :: 0 <= i < |events| && events[i].Clear? ==> Run(fallback, Start, events[..i]).inflight.None?
  }

  lemma {:induction false} NothingCut(fallback: Profile, events: seq<Event>)
    requires ClearsBetween(fallback, events)
    ensures Run(fallback, Start, events).cut == 0
  {
    if events != [] {
      var n := |events| - 1;
      assert forall i :: 0 <= i < n ==> events[..n][i] == events[i] && events[..n][..i] == events[..i];
      NothingCut(fallback, events[..n]);
    }
  }

  /** However callers and answers interleave, at most one request is open. */
  lemma SingleFlight(fallback: Profile, events: seq<Event>)
    requires ClearsBetween(fallback, events)
    ensures |Run(fallback, Start, events).open| <= 1
  {
    RunKeepsInv(fallback, events);
    NothingCut(fallback, events);
  }

  /** In general each clear that comes while a request is shared can cost one more. */
  lemma OpenAtMostCutPlusOne(fallback: Profile, events: seq<Event>)
    ensures var s := Run(fallback, Start, events); |s.open| <= s.cut + 1
  {
    RunKeepsInv(fallback, events);
  }

  /** And it does: after such a clear the next caller makes a second request beside the first. */
  lemma ClearOpensASecond(fallback: Profile, events: seq<Event>)
    requires Run(fallback, Start, events).cached.None? && Run(fallback, Start, events).inflight.Some?
    ensures var s := Run(fallback, Start, events);
            var t := Run(fallback, Start, events + [Clear] + [Call]);
            t.sent == s.sent + 1 && t.open == s.open + {s.sent} && |t.open| == |s.open| + 1 && |t.open| >= 2
  {
    RunKeepsInv(fallback, events);
    RunSnoc(fallback, Start, events, Clear);
    RunSnoc(fallback, Start, events + [Clear], Call);
    var s := Run(fallback, Start, events);
    assert s.sent !in s.open;
    assert |s.open - {s.inflight.value}| + 1 == |s.open|;
  }

  // ------------------------------------------------------------------ the memo

  /** The memo is some good answer over the fallback, never a failed one. */
  lemma MemoIsAGoodAnswer(fallback: Profile, events: seq<Event>)
    requires Run(fallback, Start, events).cached.Some?
    ensures var s := Run(fallback, Start, events);
            exists r :: r in s.answers && r.Good? && s.cached.value == fallback + r.data
  {
    RunKeepsInv(fallback, events);
  }

  /** From the memo on, no request is made until the next clear. */
  lemma {:induction false} MemoStopsRequests(fallback: Profile, s: State, events: seq<Event>)
    requires s.cached.Some? && Clear !in events
    ensures var t := Run(fallback, s, events); t.cached.Some? && t.sent == s.sent
  {
    if events != [] {
      var n := |events| - 1;
      assert events[n] in events;
      MemoStopsRequests(fallback, s, events[..n]);
    }
  }

  lemma SettledStays(fallback: Profile, s: State, e: Event)
    requires s.cached.Some? && s.open == {} && e != Clear
    ensures Step(fallback, s, e) == s
  {}

  /** Without a clear under a request, the memo does not change either, whatever still happens. */
  lemma {:induction false} MemoStays(fallback: Profile, before: seq<Event>, events: seq<Event>)
    requires ClearsBetween(fallback, before) && Run(fallback, Start, before).cached.Some? && Clear !in events
    ensures Run(fallback, Run(fallback, Start, before), events) == Run(fallback, Start, before)
  {
    if events != [] {
      var n := |events| - 1;
      assert events[n] in events;
      MemoStays(fallback, before, events[..n]);
      RunKeepsInv(fallback, before);
      NothingCut(fallback, before);
      SettledStays(fallback, Run(fallback, Start, before), events[n]);
    }
  }

  /** A failed request leaves things retryable: with no memo, the next caller makes a new request. */
  lemma FailureIsRetried(fallback: Profile, events: seq<Event>, id: nat)
    requires var s := Run(fallback, Start, events); id in s.open && s.cached.None?
    ensures var s := Run(fallback, Start, events);
            var t := Run(fallback, Start, events + [Complete(id, Bad)] + [Call]);
            t.sent == s.sent + 1 && t.inflight == Some(s.sent) && t.cached.None?
  {
    RunSnoc(fallback, Start, events, Complete(id, Bad));
    RunSnoc(fallback, Start, events + [Complete(id, Bad)], Call);
  }

  function Completions(answers: seq<(nat, Reply)>): seq<Event>
  {
    seq(|answers|, i requires 0 <= i < |answers| => Complete(answers[i].0, answers[i].1))
  }

  /** Each request answers once. */
  predicate Once(answers: seq<(nat, Reply)>) { forall i, j :: 0 <= i < j < |answers| ==> answers[i].0 != answers[j].0 }

  predicate GoodAmong(answers: seq<(nat, Reply)>, open: set<nat>)
  {
    exists i :: 0 <= i < |answers| && answers[i].1.Good? && answers[i].0 in open
  }

  lemma {:induction false} LateAnswers(fallback: Profile, s: State, answers: seq<(nat, Reply)>)
    requires s.cached.None? && s.inflight.None? && Once(answers)
    ensures var t := Run(fallback, s, Completions(answers));
            && (t.cached.Some? <==> GoodAmong(answers, s.open)) && t.inflight.None? && t.sent == s.sent
            && t.open == s.open - set i | 0 <= i < |answers| :: answers[i].0
  {
    if answers != [] {
      var n := |answers| - 1;
      LateAnswers(fallback, s, answers[..n]);
      assert Completions(answers)[..n] == Completions(answers[..n]);
      assert forall i :: 0 <= i < n ==> answers[..n][i] == answers[i];
      var earlier := set i | 0 <= i < n :: answers[..n][i].0;
      assert (set i | 0 <= i < |answers| :: answers[i].0) == earlier + {answers[n].0};
      assert GoodAmong(answers, s.open) <==>
          GoodAmong(answers[..n], s.open) || (answers[n].1.Good? && answers[n].0 in s.open);
    }
  }

  /**
   After a clear, the next caller reads the API again exactly when no request that was already open at
   the clear has answered well in between; otherwise it gets that older profile.
   */
  lemma NextFetchRereadsIff(fallback: Profile, events: seq<Event>, answers: seq<(nat, Reply)>)
    requires Once(answers)
    ensures var s := Run(fallback, Start, events);
            var t := Run(fallback, Step(fallback, s, Clear), Completions(answers));
            Step(fallback, t, Call).sent == s.sent + 1 <==> !GoodAmong(answers, s.open)
  {
    var s := Run(fallback, Start, events);
    LateAnswers(fallback, Step(fallback, s, Clear), answers);
  }

  // ------------------------------------------------------------------ the module

  /** What a caller gets at once: the memo, or a request to wait for. */
  datatype Ticket = Memo(profile: Profile) | Wait(id: nat)

  class CompanyModule {
    const fallback: Profile
    var cached: Option<Profile>
    var inflight: Option<nat>
    var open: set<nat>
    var sent: nat
    var answers: seq<Reply>
    var cut: nat

    function View(): State
      reads this
    {
      State(cached, inflight, open, sent, answers, cut)
    }

    constructor (fallback: Profile)
      ensures this.fallback == fallback && View() == Start
    {
      this.fallback := fallback;
      cached, inflight, open, sent, answers, cut := None, None, {}, 0, [], 0;
    }

    /** fetchCompanyProfile, up to the promise it returns. */
    method Fetch() returns (ticket: Ticket)
      requires Inv(fallback, View())
      modifies this
      ensures View() == Step(fallback, old(View()), Call) && Inv(fallback, View())
      ensures ticket == if old(cached).Some? then Memo(old(cached).value)
                        else Wait(if old(inflight).Some? then old(inflight).value else old(sent))
      ensures ticket.Wait? ==> inflight == Some(ticket.id) && ticket.id in open
    {
      StepKeepsInv(fallback, View(), Call);
      if cached.Some? { return Memo(cached.value); }
      if inflight.None? {
        open, inflight, sent := open + {sent}, Some(sent), sent + 1;
      }
      return Wait(inflight.value);
    }

    /** The rest of the shared function, once its request has answered: `profile` is what all who wait get. */
    method Answer(id: nat, reply: Reply) returns (profile: Profile)
      requires Inv(fallback, View()) && id in open
      modifies this
      ensures View() == Step(fallback, old(View()), Complete(id, reply)) && Inv(fallback, View())
      ensures reply.Bad? ==> profile == fallback && cached == old(cached)
      ensures reply.Good? ==>
                && cached == Some(profile) && profile.Keys == fallback.Keys + reply.data.Keys
                && (forall k :: k in reply.data ==> profile[k] == reply.data[k])
                && (forall k :: k in fallback && k !in reply.data ==> profile[k] == fallback[k])
      ensures inflight == None
    {
      StepKeepsInv(fallback, View(), Complete(id, reply));
      open, answers := open - {id}, answers + [reply];
      match reply {
        case Good(data) =>
          profile := fallback + data;
          cached := Some(profile);
        case Bad =>
          profile := fallback;
      }
      inflight := None;
    }

    /** clearCompanyProfileCache */
    method ClearCache()
      requires Inv(fallback, View())
      modifies this
      ensures View() == Step(fallback, old(View()), Clear) && Inv(fallback, View())
      ensures cached == None && inflight == None && open == old(open)
    {
      StepKeepsInv(fallback, View(), Clear);
      cut := cut + if inflight.Some? then 1 else 0;
      cached, inflight := None, None;
    }
  }
}
