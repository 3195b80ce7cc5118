// internal/mcpclient/stdio.go: matching responses to requests on a shared line stream, where a
// timed-out request leaves a reader behind that will swallow a later line.

module Stdio {
  import opened Text
  import opened Manifest

  // One line of the downstream server: not JSON, or a response with its raw id text.
  datatype Line = Noise | Response(id: Option<string>, error: Option<string>, result: string)

  predicate Answers(l: Line, id: nat)
  {
    l.Response? && l.id == Some(Decimal(id))
  }

  // What can happen on the stream. Read: the request in flight takes the next line. Stolen: a
  // reader abandoned by an earlier timeout takes it instead. ReadFailed, ReaderGone: the one or the
  // other meets the end of the stream or an error.
  datatype Event = Written(l: Line) | Read | Stolen | DeadlinePassed | ReadFailed | ReaderGone

  datatype Step = Begin(sent: bool) | Happens(e: Event)

  // pipe holds the lines written and not yet taken by any reader; waiting is the id in flight.
  datatype State = State(nextId: nat, pipe: seq<Line>, abandoned: nat, waiting: Option<nat>,
                         returned: seq<(nat, Line)>, taken: seq<Line>)

  function React(s: State, e: Event): State
  {
    match e
    case Written(l) => s.(pipe := s.pipe + [l])
    case Read =>
      if s.waiting.None? || s.pipe == [] then s
      else
        var l := s.pipe[0];
        var t := s.(pipe := s.pipe[1..], taken := s.taken + [l]);
        if Answers(l, s.waiting.value) then t.(returned := t.returned + [(s.waiting.value, l)], waiting := None) else t
    case Stolen =>
      if s.abandoned == 0 || s.pipe == [] then s
      else s.(pipe := s.pipe[1..], taken := s.taken + [s.pipe[0]], abandoned := s.abandoned - 1)
    case ReaderGone =>
      if s.abandoned == 0 then s else s.(abandoned := s.abandoned - 1)
    case DeadlinePassed =>
      if s.waiting.None? then s else s.(waiting := None, abandoned := s.abandoned + 1)
    case ReadFailed =>
      if s.waiting.None? then s else s.(waiting := None)
  }

  // One request at a time: the client's mutex.
  function Next(s: State, step: Step): State
  {
    match step
    case Begin(sent) =>
      if s.waiting.Some? then s
      else s.(nextId := s.nextId + 1, waiting := if sent then Some(s.nextId + 1) else None)
    case Happens(e) => React(s, e)
  }

  function RunEvents(s: State, events: seq<Event>): State
  {
    if events == [] then s else React(RunEvents(s, events[..|events| - 1]), events[|events| - 1])
  }

  function Run(s: State, steps: seq<Step>): State
  {
    if steps == [] then s else Next(Run(s, steps[..|steps| - 1]), steps[|steps| - 1])
  }

  const FRESH := State(0, [], 0, None, [], [])

  lemma EventsNext(s: State, events: seq<Event>, k: nat)
    requires k < |events|
    ensures RunEvents(s, events[..k + 1]) == React(RunEvents(s, events[..k]), events[k])
  {
    assert events[..k + 1][..k] == events[..k];
  }

  datatype Outcome = Result(l: Line) | RpcError(message: string) | WriteFailed | TimedOut | Broken | Blocked

  // A result is a line that answers the request and holds no error, an RPC error one that holds it;
  // with any other outcome nothing is returned.
  ghost predicate Ended(r: Outcome, id: nat, before: seq<(nat, Line)>, after: seq<(nat, Line)>)
  {
    match r
    case Result(l) => Answers(l, id) && l.error == None && after == before + [(id, l)]
    case RpcError(message) =>
      exists l :: Answers(l, id) && l.error == Some(message) && after == before + [(id, l)]
    case _ => after == before
  }

  class StdioClient {
    var nextId: nat
    var pipe: seq<Line>
    var abandoned: nat
    ghost var returned: seq<(nat, Line)>
    ghost var taken: seq<Line>

    ghost function At(waiting: Option<nat>): State
      reads this
    {
      State(nextId, pipe, abandoned, waiting, returned, taken)
    }

    constructor ()
      ensures At(None) == FRESH
    {
      nextId, pipe, abandoned, returned, taken := 0, [], 0, [], [];
    }

    // What goes on beside the request: the server writes, abandoned readers read or fail.
    method Background(e: Event, ghost waiting: Option<nat>)
      requires e.Written? || e.Stolen? || e.ReaderGone?
      modifies this`pipe, this`taken, this`abandoned
      ensures At(waiting) == React(old(At(waiting)), e)
    {
      if e.Written? {
        pipe := pipe + [e.l];
      } else if e.ReaderGone? {
        abandoned := if abandoned > 0 then abandoned - 1 else 0;
      } else if abandoned > 0 && pipe != [] {
        taken := taken + [pipe[0]];
        pipe, abandoned := pipe[1..], abandoned - 1;
      }
    }

    // Takes the next line, if one is there, and returns it when it answers the request.
    method ReadAnswer(id: nat) returns (answer: Option<Line>)
      modifies this`pipe, this`taken, this`returned
      ensures At(if answer.Some? then None else Some(id)) == React(old(At(Some(id))), Read)
      ensures answer.None? ==> returned == old(returned)
      ensures answer.Some? ==> Answers(answer.value, id) && returned == old(returned) + [(id, answer.value)]
    {
      if pipe == [] {
        return None;
      }
      var line := pipe[0];
      taken := taken + [line];
      pipe := pipe[1..];
      if !line.Response? || line.id != Some(Decimal(id)) {
        return None;
      }
      returned := returned + [(id, line)];
      return Some(line);
    }

    // Sends one request and reads until its answer, its deadline or the end of the stream.
    // events is what the environment does meanwhile; Blocked means it did no more.
    method Request(sent: bool, events: seq<Event>) returns (r: Outcome, ghost seen: nat)
      modifies this
      ensures nextId == old(nextId) + 1 && seen <= |events|
      ensures At(if r.Blocked? then Some(nextId) else None) ==
              RunEvents(Next(old(At(None)), Begin(sent)), events[..seen])
      ensures Ended(r, nextId, old(returned), returned)
      ensures r.WriteFailed? <==> !sent
      ensures r.TimedOut? <==> seen > 0 && events[seen - 1].DeadlinePassed?
      ensures r.Broken? <==> seen > 0 && events[seen - 1].ReadFailed?
      ensures r.Blocked? <==> RunEvents(Next(old(At(None)), Begin(sent)), events[..seen]).waiting.Some?
    {
      nextId := nextId + 1;
      seen := 0;
      if !sent {
        return WriteFailed, 0;
      }
      var id := nextId;
      var k := 0;
      while k < |events|
        invariant k <= |events| && nextId == old(nextId) + 1 && id == nextId
        invariant returned == old(returned) && seen == k
        invariant k > 0 ==> !events[k - 1].DeadlinePassed? && !events[k - 1].ReadFailed?
        invariant At(Some(id)) == RunEvents(Next(old(At(None)), Begin(true)), events[..k])
      {
        EventsNext(Next(old(At(None)), Begin(true)), events, k);
        var e := events[k];
        k := k + 1;
        seen := k;
        match e {
          case Written(_) => Background(e, Some(id));
          case Stolen => Background(e, Some(id));
          case ReaderGone => Background(e, Some(id));
          case DeadlinePassed =>
            abandoned := abandoned + 1;
            return TimedOut, k;
          case ReadFailed =>
            return Broken, k;
          case Read =>
            var answer := ReadAnswer(id);
            if answer.Some? {
              if answer.value.error.Some? {
                return RpcError(answer.value.error.value), k;
              }
              return Result(answer.value), k;
            }
        }
      }
      return Blocked, k;
    }
  }

  // ---- Whole runs -------------------------------------------------------------------

  // The steps of one request: its beginning and what happens until it ends.
  function Served(sent: bool, events: seq<Event>): seq<Step>
  {
    [Begin(sent)] + seq(|events|, i requires 0 <= i < |events| => Happens(events[i]))
  }

  // One request continues the run so far: what Request computes from a run's state is the state
  // of the longer run.
  lemma {:induction false} RequestExtendsRun(steps: seq<Step>, sent: bool, events: seq<Event>)
    ensures Run(FRESH, steps + Served(sent, events)) == RunEvents(Next(Run(FRESH, steps), Begin(sent)), events)
  {
    var all := steps + Served(sent, events);
    if events == [] {
      assert all == steps + [Begin(sent)];
    } else {
      var init := events[..|events| - 1];
      RequestExtendsRun(steps, sent, init);
      assert all[..|all| - 1] == steps + Served(sent, init);
      assert all[|all| - 1] == Happens(events[|events| - 1]);
    }
  }

  // The line that a step hands to a reader abandoned by a timeout, or to the request in flight.
  function LostBy(s: State, step: Step): seq<Line>
  {
    if step == Happens(Stolen) && s.abandoned > 0 && s.pipe != [] then [s.pipe[0]] else []
  }

  function DeliveredBy(s: State, step: Step): seq<Line>
  {
    if step == Happens(Read) && s.waiting.Some? && s.pipe != [] then [s.pipe[0]] else []
  }

  function Lost(steps: seq<Step>): seq<Line>
  {
    if steps == [] then [] else
      var init, last := steps[..|steps| - 1], steps[|steps| - 1];
      Lost(init) + LostBy(Run(FRESH, init), last)
  }

  function Delivered(steps: seq<Step>): seq<Line>
  {
    if steps == [] then [] else
      var init, last := steps[..|steps| - 1], steps[|steps| - 1];
      Delivered(init) + DeliveredBy(Run(FRESH, init), last)
  }

  // How many requests ended at their deadline.
  function TimedOuts(steps: seq<Step>): nat
  {
    if steps == [] then 0 else
      var init, last := steps[..|steps| - 1], steps[|steps| - 1];
      TimedOuts(init) + if last == Happens(DeadlinePassed) && Run(FRESH, init).waiting.Some? then 1 else 0
  }

  // How many abandoned readers failed.
  function Failed(steps: seq<Step>): nat
  {
    if steps == [] then 0 else
      var init, last := steps[..|steps| - 1], steps[|steps| - 1];
      Failed(init) + if last == Happens(ReaderGone) && Run(FRESH, init).abandoned > 0 then 1 else 0
  }

  // Every timed-out request costs at most one line: the lines lost, the readers that failed and the
  // readers still left behind are together as many as the timeouts.
  lemma {:induction false} LossesAreTimeouts(steps: seq<Step>)
    ensures |Lost(steps)| + Failed(steps) + Run(FRESH, steps).abandoned == TimedOuts(steps)
  {
    if steps != [] {
      var init, last := steps[..|steps| - 1], steps[|steps| - 1];
      LossesAreTimeouts(init);
      AbandonedStep(Run(FRESH, init), last);
    }
  }

  // A timeout leaves one reader behind; a line lost or a failure takes one away.
  lemma AbandonedStep(s: State, step: Step)
    ensures Next(s, step).abandoned + |LostBy(s, step)| +
            (if step == Happens(ReaderGone) && s.abandoned > 0 then 1 else 0) ==
            s.abandoned + if step == Happens(DeadlinePassed) && s.waiting.Some? then 1 else 0
  {
  }

  // So all but that many of the lines written are delivered or still waiting to be.
  lemma LinesDelivered(steps: seq<Step>)
    ensures multiset(Run(FRESH, steps).taken) == multiset(Delivered(steps)) + multiset(Lost(steps))
    ensures |WrittenIn(steps)| <= |Delivered(steps)| + |Run(FRESH, steps).pipe| + TimedOuts(steps)
  {
    TakenLines(steps);
    LinesAreConserved(steps);
    LossesAreTimeouts(steps);
    assert |multiset(Run(FRESH, steps).taken)| == |Delivered(steps)| + |Lost(steps)|;
  }

  lemma {:induction false} TakenLines(steps: seq<Step>)
    ensures multiset(Run(FRESH, steps).taken) == multiset(Delivered(steps)) + multiset(Lost(steps))
  {
    if steps != [] {
      var init, last := steps[..|steps| - 1], steps[|steps| - 1];
      TakenLines(init);
      TakenStep(Run(FRESH, init), last);
    }
  }

  lemma TakenStep(s: State, step: Step)
    ensures Next(s, step).taken == s.taken + DeliveredBy(s, step) + LostBy(s, step)
  {
  }

  function WrittenIn(steps: seq<Step>): seq<Line>
  {
    if steps == [] then [] else
      var last := steps[|steps| - 1];
      WrittenIn(steps[..|steps| - 1]) + if last.Happens? && last.e.Written? then [last.e.l] else []
  }

  // Lines are taken in the order written, each by one reader: nothing is read twice or invented.
  lemma {:induction false} LinesAreConserved(steps: seq<Step>)
    ensures Run(FRESH, steps).taken + Run(FRESH, steps).pipe == WrittenIn(steps)
  {
    if steps != [] {
      var init := steps[..|steps| - 1];
      LinesAreConserved(init);
      var s := Run(FRESH, init);
      if s.pipe != [] {
        assert s.taken + s.pipe == (s.taken + [s.pipe[0]]) + s.pipe[1..];
      }
      var last := steps[|steps| - 1];
      if last.Happens? && last.e.Written? {
        assert s.taken + (s.pipe + [last.e.l]) == (s.taken + s.pipe) + [last.e.l];
      }
    }
  }

  // A log of answers: ids rise to at most top, each line answers its id and was read.
  ghost predicate Log(r: seq<(nat, Line)>, taken: seq<Line>, top: nat)
  {
    && (forall i :: 0 <= i < |r| ==> 0 < r[i].0 <= top && Answers(r[i].1, r[i].0) && r[i].1 in taken)
    && (forall i, j :: 0 <= i < j < |r| ==> r[i].0 < r[j].0)
  }

  // Ids come from one counter; the request in flight holds its newest value, above every id
  // answered so far.
  ghost predicate Orderly(s: State)
  {
    if s.waiting.Some? then s.waiting.value == s.nextId > 0 && Log(s.returned, s.taken, s.nextId - 1)
    else Log(s.returned, s.taken, s.nextId)
  }

  lemma LogGrows(r: seq<(nat, Line)>, taken: seq<Line>, top: nat, more: seq<Line>, higher: nat)
    requires Log(r, taken, top) && top <= higher
    ensures Log(r, taken + more, higher)
  {
  }

  lemma LogAppends(r: seq<(nat, Line)>, taken: seq<Line>, id: nat, l: Line)
    requires id > 0 && Log(r, taken, id - 1) && Answers(l, id)
    ensures Log(r + [(id, l)], taken + [l], id)
  {
    var q := r + [(id, l)];
    assert forall i :: 0 <= i < |r| ==> q[i] == r[i];
    assert l in taken + [l];
  }

  lemma OrderlyTake(s: State, e: Event)
    requires Orderly(s) && s.pipe != [] && (e.Read? || e.Stolen?)
    ensures Orderly(React(s, e))
  {
    var l := s.pipe[0];
    var top := if s.waiting.Some? then s.nextId - 1 else s.nextId;
    LogGrows(s.returned, s.taken, top, [l], top);
    if e.Read? && s.waiting.Some? && Answers(l, s.nextId) {
      LogAppends(s.returned, s.taken, s.nextId, l);
    }
  }

  lemma OrderlyStep(s: State, step: Step)
    requires Orderly(s)
    ensures Orderly(Next(s, step))
  {
    if step.Happens? && (step.e.Read? || step.e.Stolen?) && s.pipe != [] {
      OrderlyTake(s, step.e);
    } else if s.waiting.Some? {
      LogGrows(s.returned, s.taken, s.nextId - 1, [], s.nextId);
      assert s.taken + [] == s.taken;
    }
  }

  lemma {:induction false} RunsAreOrderly(steps: seq<Step>)
    ensures Orderly(Run(FRESH, steps))
    ensures Log(Run(FRESH, steps).returned, Run(FRESH, steps).taken, Run(FRESH, steps).nextId)
  {
    if steps != [] {
      RunsAreOrderly(steps[..|steps| - 1]);
      OrderlyStep(Run(FRESH, steps[..|steps| - 1]), steps[|steps| - 1]);
    }
  }

  // The line that answers the request in flight ends it and is returned; any other is passed over.
  lemma ReadDecides(s: State, id: nat)
    requires s.waiting == Some(id) && s.pipe != []
    ensures var l, t := s.pipe[0], React(s, Read);
            && t.pipe == s.pipe[1..] && t.taken == s.taken + [l]
            && (l.Response? && l.id == Some(Decimal(id)) ==>
                  t.waiting == None && t.returned == s.returned + [(id, l)])
            && (!l.Response? || l.id != Some(Decimal(id)) ==> t.waiting == Some(id) && t.returned == s.returned)
  {
  }

  // Ids only grow: a later request never reuses one.
  lemma {:induction false} IdsNeverReused(steps: seq<Step>, more: seq<Step>, sent: bool)
    requires Run(FRESH, steps + more).waiting.None?
    ensures Run(FRESH, steps + more + [Begin(sent)]).nextId > Run(FRESH, steps).nextId
    decreases |more|
  {
    var all := steps + more + [Begin(sent)];
    assert all[..|all| - 1] == steps + more;
    IdsGrow(steps, more);
  }

  lemma {:induction false} IdsGrow(steps: seq<Step>, more: seq<Step>)
    ensures Run(FRESH, steps + more).nextId >= Run(FRESH, steps).nextId
  {
    if more == [] {
      assert steps + more == steps;
    } else {
      var init := more[..|more| - 1];
      IdsGrow(steps, init);
      assert (steps + more)[..|steps + more| - 1] == steps + init;
    }
  }

  // Whatever timed out before and however many readers were left behind, every line returned to
  // a request was written by the server, carries that request's id and no other request's: a late
  // answer to one request is never returned to another.
  lemma ReturnedLinesAreOwn(steps: seq<Step>, i: nat, other: nat)
    requires i < |Run(FRESH, steps).returned|
    ensures var (id, l) := Run(FRESH, steps).returned[i];
            l in WrittenIn(steps) && Answers(l, id) && (Answers(l, other) <==> other == id)
  {
    RunsAreOrderly(steps);
    LinesAreConserved(steps);
    var s := Run(FRESH, steps);
    var (id, l) := s.returned[i];
    assert l in s.taken + s.pipe;
    if Answers(l, other) {
      DecimalInjective(id, other);
    }
  }

  // No request is answered twice, and answers come in request order.
  lemma AnsweredOnceInOrder(steps: seq<Step>, i: nat, j: nat)
    requires i < j < |Run(FRESH, steps).returned|
    ensures Run(FRESH, steps).returned[i].0 < Run(FRESH, steps).returned[j].0 <= Run(FRESH, steps).nextId
  {
    RunsAreOrderly(steps);
  }
}
