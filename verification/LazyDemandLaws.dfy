/**
  What the lazy-input contract (docs/lazy-input-m1-contract.md, sections 4 and 5) promises of every
  oracle run.
 */
module LazyDemandLaws {
  import opened Wrappers
  import opened Sorting
  import opened LazyDemand

  // ---- schedule independence ----------------------------------------------

  /** A producer that neither fails nor is cancelled. */
  predicate Yields(s: ProducerState) {
    s == Cold || s == Warm || s == Incidental
  }

  predicate SameButState(a: Input, b: Input) {
    && a.(producerState := Cold) == b.(producerState := Cold)
    && (a.producerState == b.producerState || (Yields(a.producerState) && Yields(b.producerState)))
  }

  ghost predicate Similar(a: seq<Input>, b: seq<Input>) {
    |a| == |b| && forall i :: 0 <= i < |a| ==> SameButState(a[i], b[i])
  }

  /** Cases that differ only in schedule, cache and in how each yielding producer came by its value. */
  ghost predicate SimilarCases(c: Case, d: Case) {
    c.targets == d.targets && c.hookRounds == d.hookRounds && c.staticCycle == d.staticCycle && Similar(c.inputs, d.inputs)
  }

  ghost predicate SimilarMaps(a: map<string, Input>, b: map<string, Input>) {
    a.Keys == b.Keys && forall id :: id in a ==> SameButState(a[id], b[id])
  }

  ghost predicate RunsAgree(r: Run, s: Run) {
    && r.demanded == s.demanded && r.views == s.views && r.events == s.events && r.phase == s.phase
    && SetOf(r.executed) + SetOf(r.reused) == SetOf(s.executed) + SetOf(s.reused)
  }

  /** The same outcome, error attribution, demand, hook views and demand events, and the same producers put
      to use. */
  ghost predicate AnswersAgree(a: Answer, b: Answer) {
    && a.outcome == b.outcome && a.errorCode == b.errorCode && a.errorNode == b.errorNode
    && a.demanded == b.demanded && a.views == b.views && a.events == b.events
    && SetOf(a.executed) + SetOf(a.reused) == SetOf(b.executed) + SetOf(b.reused)
  }

  lemma {:induction false} SimilarInputs(a: seq<Input>, b: seq<Input>, ids: set<string>)
    requires Similar(a, b)
    ensures SimilarMaps(ById(a), ById(b))
    ensures Visible(a, ids) == Visible(b, ids)
    ensures Select(a, ids) == Select(b, ids)
  {
    if a != [] {
      var n := |a| - 1;
      SimilarInputs(a[..n], b[..n], ids);
      assert SameButState(a[n], b[n]);
    }
  }

  lemma {:induction false} SimilarProblems(raw: seq<Item>, a: map<string, Input>, b: map<string, Input>)
    requires SimilarMaps(a, b)
    ensures Problem(raw, a) == Problem(raw, b)
  {
    if raw != [] {
      SimilarProblems(raw[1..], a, b);
    }
  }

  lemma {:induction false} SimilarProducers(ids: seq<string>, a: map<string, Input>, b: map<string, Input>)
    requires SimilarMaps(a, b)
    ensures ProducersOf(ids, a) == ProducersOf(ids, b)
  {
    if ids != [] {
      SimilarProducers(ids[..|ids| - 1], a, b);
    }
  }

  lemma SetOfAppend(names: seq<string>, name: string)
    ensures SetOf(Append(names, name)) == SetOf(names) + {name}
  {
  }

  lemma SettleOneAgrees(r: Run, s: Run, id: string, a: map<string, Input>, b: map<string, Input>)
    requires SimilarMaps(a, b) && RunsAgree(r, s)
    ensures RunsAgree(SettleOne(r, id, a), SettleOne(s, id, b))
  {
    if id in a && a[id].producer.Some? {
      assert SameButState(a[id], b[id]);
      var producer := a[id].producer.value;
      SetOfAppend(r.executed, producer);
      SetOfAppend(r.reused, producer);
      SetOfAppend(s.executed, producer);
      SetOfAppend(s.reused, producer);
    }
  }

  lemma {:induction false} SettleAgrees(r: Run, s: Run, ids: seq<string>, a: map<string, Input>, b: map<string, Input>)
    requires SimilarMaps(a, b) && RunsAgree(r, s)
    ensures RunsAgree(Settle(r, ids, a), Settle(s, ids, b))
  {
    if ids != [] {
      var n := |ids| - 1;
      SettleAgrees(r, s, ids[..n], a, b);
      SettleOneAgrees(Settle(r, ids[..n], a), Settle(s, ids[..n], b), ids[n], a, b);
    }
  }

  lemma AskedAgrees(r: Run, s: Run, number: nat, requested: seq<string>, a: seq<Input>, b: seq<Input>)
    requires Similar(a, b) && RunsAgree(r, s)
    ensures RunsAgree(Asked(r, number, requested, a), Asked(s, number, requested, b))
  {
    var new_ := Undemanded(requested, r.demanded);
    SimilarInputs(a, b, r.demanded);
    SimilarInputs(a, b, r.demanded + SetOf(new_));
    SimilarProducers(new_, ById(a), ById(b));
  }

  lemma GrantedAgrees(r: Run, s: Run, number: nat, requested: seq<string>, a: seq<Input>, b: seq<Input>)
    requires Similar(a, b) && RunsAgree(r, s)
    ensures RunsAgree(Granted(r, number, requested, a), Granted(s, number, requested, b))
  {
    AskedAgrees(r, s, number, requested, a, b);
    SimilarInputs(a, b, {});
    SettleAgrees(Asked(r, number, requested, a), Asked(s, number, requested, b), Undemanded(requested, r.demanded), ById(a), ById(b));
  }

  lemma NormalizeAgrees(raw: seq<Item>, a: seq<Input>, b: seq<Input>)
    requires Similar(a, b)
    ensures Normalize(raw, a) == Normalize(raw, b)
  {
    SimilarInputs(a, b, NamesOf(raw));
    SimilarProblems(raw, ById(a), ById(b));
  }

  lemma StepAgrees(r: Run, s: Run, number: nat, round: Round, a: seq<Input>, b: seq<Input>)
    requires Similar(a, b) && RunsAgree(r, s) && r.phase.Running?
    ensures RunsAgree(Step(r, number, round, a), Step(s, number, round, b))
  {
    SimilarInputs(a, b, r.demanded);
    if round.Requests? {
      NormalizeAgrees(round.items, a, b);
      if Normalize(round.items, a).Success? {
        GrantedAgrees(r, s, number, Normalize(round.items, a).value, a, b);
      }
    }
  }

  lemma NextAgrees(c: Case, d: Case, k: nat)
    requires SimilarCases(c, d) && k < |c.hookRounds| && RunsAgree(After(c, k), After(d, k))
    ensures RunsAgree(After(c, k + 1), After(d, k + 1))
  {
    hide After, Step;
    AfterNext(c, k);
    AfterNext(d, k);
    if After(c, k).phase.Running? {
      StepAgrees(After(c, k), After(d, k), k + 1, c.hookRounds[k], c.inputs, d.inputs);
    }
  }

  lemma {:induction false} AfterAgrees(c: Case, d: Case, k: nat)
    requires SimilarCases(c, d) && k <= |c.hookRounds|
    ensures RunsAgree(After(c, k), After(d, k))
  {
    hide After, Step;
    if k == 0 {
      AfterStart(c);
      AfterStart(d);
    } else {
      AfterAgrees(c, d, k - 1);
      NextAgrees(c, d, k - 1);
    }
  }

  /** Scheduling, caching and incidental completion change nothing that a hook or a client can see. */
  lemma ScheduleIsInvisible(c: Case, d: Case)
    requires SimilarCases(c, d)
    ensures Oracle(c).Success? <==> Oracle(d).Success?
    ensures Oracle(c).Success? ==> AnswersAgree(Oracle(c).value, Oracle(d).value)
  {
    if Reached(c) {
      AfterAgrees(c, d, |c.hookRounds|);
      SimilarInputs(c.inputs, d.inputs, After(c, |c.hookRounds|).demanded);
    }
  }

  // ---- the order of requests ----------------------------------------------

  predicate SameRequests(a: Round, b: Round) {
    if a.HookError? || b.HookError? then a == b
    else (forall x :: x in a.items ==> x in b.items) && (forall x :: x in b.items ==> x in a.items)
  }

  /** Cases whose hook answers differ only in order and repetition. */
  ghost predicate ReorderedCases(c: Case, d: Case) {
    && c.(hookRounds := []) == d.(hookRounds := []) && |c.hookRounds| == |d.hookRounds|
    && forall i :: 0 <= i < |c.hookRounds| ==> SameRequests(c.hookRounds[i], d.hookRounds[i])
  }

  lemma {:induction false} ProblemIsSomeItem(raw: seq<Item>, byId: map<string, Input>)
    ensures Problem(raw, byId).Some? <==> exists x :: x in raw && ItemProblem(x, byId).Some?
  {
    if raw != [] {
      ProblemIsSomeItem(raw[1..], byId);
      assert raw == [raw[0]] + raw[1..];
    }
  }

  /** Whether a round is refused, and what it asks for, depends only on the set of its requests. */
  lemma NormalizeIgnoresOrder(a: seq<Item>, b: seq<Item>, inputs: seq<Input>)
    requires SameRequests(Requests(a), Requests(b))
    ensures Normalize(a, inputs).Success? <==> Normalize(b, inputs).Success?
    ensures Normalize(a, inputs).Success? ==> Normalize(a, inputs) == Normalize(b, inputs)
  {
    ProblemIsSomeItem(a, ById(inputs));
    ProblemIsSomeItem(b, ById(inputs));
    assert NamesOf(a) == NamesOf(b);
  }

  predicate RefusedRequest(r: Run) {
    r.phase.Ended? && r.phase.outcome == Error && r.phase.code.Some? && r.phase.code != Some(ProducerFailed) && r.phase.code != Some(HookFailed)
  }

  /** Equal, except that a refused round may be refused for the first of other reasons. */
  predicate SameButReason(r: Run, s: Run) {
    r == s || (RefusedRequest(r) && RefusedRequest(s) && r.(phase := s.phase) == s && r.phase.node == s.phase.node)
  }

  lemma {:induction false} ItemProblemIsRefusal(raw: seq<Item>, byId: map<string, Input>)
    ensures Problem(raw, byId).Some? ==> Problem(raw, byId).value in {RequestInvalid, RequestUnknown, RequestNonLazy, RequestLiteral, RequestUnconnected}
  {
    if raw != [] {
      ItemProblemIsRefusal(raw[1..], byId);
    }
  }

  lemma StepIgnoresOrder(r: Run, number: nat, a: Round, b: Round, inputs: seq<Input>)
    requires SameRequests(a, b) && r.phase.Running?
    ensures SameButReason(Step(r, number, a, inputs), Step(r, number, b, inputs))
  {
    if a.Requests? {
      NormalizeIgnoresOrder(a.items, b.items, inputs);
      ItemProblemIsRefusal(a.items, ById(inputs));
      ItemProblemIsRefusal(b.items, ById(inputs));
    }
  }

  lemma NextIgnoresOrder(c: Case, d: Case, k: nat)
    requires ReorderedCases(c, d) && k < |c.hookRounds| && SameButReason(After(c, k), After(d, k))
    ensures SameButReason(After(c, k + 1), After(d, k + 1))
  {
    hide After, Step;
    AfterNext(c, k);
    AfterNext(d, k);
    assert SameRequests(c.hookRounds[k], d.hookRounds[k]) && c.inputs == d.inputs;
    if After(c, k).phase.Running? {
      StepIgnoresOrder(After(c, k), k + 1, c.hookRounds[k], d.hookRounds[k], c.inputs);
    }
  }

  lemma {:induction false} AfterIgnoresOrder(c: Case, d: Case, k: nat)
    requires ReorderedCases(c, d) && k <= |c.hookRounds|
    ensures SameButReason(After(c, k), After(d, k))
  {
    hide After, Step;
    if k == 0 {
      AfterStart(c);
      AfterStart(d);
    } else {
      AfterIgnoresOrder(c, d, k - 1);
      NextIgnoresOrder(c, d, k - 1);
    }
  }

  /** The order and repetition of a hook's answer never reach demand, views, events or producers; only the
      code of a refused round may name another of its faults. */
  lemma RequestOrderIsInvisible(c: Case, d: Case)
    requires ReorderedCases(c, d) && Oracle(c).Success?
    ensures Oracle(d).Success?
    ensures var a, b := Oracle(c).value, Oracle(d).value; a.(errorCode := None) == b.(errorCode := None)
  {
    if Reached(c) {
      AfterIgnoresOrder(c, d, |c.hookRounds|);
    }
  }
}
