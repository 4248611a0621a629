/**
  The lazy-input oracle (tools/gen_lazy_input_m1_fixtures.py): hook rounds that demand deferred inputs
  until nothing new is asked for.

  A case is the parsed JSON value. A value is opaque, except that `Nothing` is Python's `None`.
 */
module LazyDemand {
  import opened Wrappers
  import opened Sorting

  datatype Binding = Link | Literal | Omitted | Default

  datatype ProducerState = Cold | Warm | Incidental | Broken | Cancel

  datatype Value = Nothing | Just(token: string)

  datatype Input = Input(
    id: string,
    binding: Binding,
    lazy: bool,
    value: Value,
    producer: Option<string>,
    producerState: ProducerState)

  /** One element of a hook's answer; only strings name inputs. */
  datatype Item = Name(id: string) | NotAString

  datatype Round = HookError | Requests(items: seq<Item>)

  datatype Case = Case(
    targets: seq<string>,
    schedule: string,
    cache: string,
    inputs: seq<Input>,
    hookRounds: seq<Round>,
    staticCycle: seq<string>)

  datatype Code =
    | Cycle | HookFailed | RequestInvalid | RequestUnknown | RequestNonLazy | RequestLiteral
    | RequestUnconnected | ProducerFailed

  datatype Event = Event(
    round: nat,
    waiting: bool,
    requested: seq<string>,
    new_: seq<string>,
    demanded: seq<string>,
    producers: seq<string>)

  datatype Outcome = NotReached | ValidationError | Execute | Error | Cancelled

  datatype Answer = Answer(
    outcome: Outcome,
    errorCode: Option<Code>,
    errorNode: Option<string>,
    demanded: seq<string>,
    executed: seq<string>,
    reused: seq<string>,
    views: seq<map<string, Value>>,
    events: seq<Event>)

  /** A demanded link without a producer is a `KeyError` in the script. */
  datatype Crash = MissingProducer(id: string)

  // ---- views and requests -------------------------------------------------

  function ById(inputs: seq<Input>): map<string, Input> {
    if inputs == [] then map[] else ById(inputs[..|inputs| - 1])[inputs[|inputs| - 1].id := inputs[|inputs| - 1]]
  }

  predicate Deferred(i: Input) {
    i.lazy && i.binding == Link
  }

  function Visible(inputs: seq<Input>, demanded: set<string>): map<string, Value> {
    if inputs == [] then map[]
    else
      var i := inputs[|inputs| - 1];
      var rest := Visible(inputs[..|inputs| - 1], demanded);
      if i.binding == Omitted then rest
      else if Deferred(i) && i.id !in demanded then rest[i.id := Nothing]
      else rest[i.id := i.value]
  }

  /** The first request that cannot be granted decides the code. */
  function Problem(raw: seq<Item>, byId: map<string, Input>): Option<Code> {
    if raw == [] then None
    else
      var own := ItemProblem(raw[0], byId);
      if own.Some? then own else Problem(raw[1..], byId)
  }

  function ItemProblem(item: Item, byId: map<string, Input>): Option<Code> {
    match item
    case NotAString => Some(RequestInvalid)
    case Name(id) =>
      if id !in byId then Some(RequestUnknown)
      else
        var spec := byId[id];
        if !spec.lazy then Some(RequestNonLazy)
        else if spec.binding == Literal then Some(RequestLiteral)
        else if spec.binding == Omitted || spec.binding == Default then Some(RequestUnconnected)
        else None
  }

  /** The ids of `inputs` that are in `ids`, in declaration order. */
  function Select(inputs: seq<Input>, ids: set<string>): seq<string> {
    if inputs == [] then []
    else Select(inputs[..|inputs| - 1], ids) + if inputs[|inputs| - 1].id in ids then [inputs[|inputs| - 1].id] else []
  }

  function NamesOf(raw: seq<Item>): set<string> {
    set item | item in raw && item.Name? :: item.id
  }

  function Normalize(raw: seq<Item>, inputs: seq<Input>): Result<seq<string>, Code> {
    match Problem(raw, ById(inputs))
    case Some(code) => Failure(code)
    case None => Success(Select(inputs, NamesOf(raw)))
  }

  /** The requests that are not demanded yet, in the same order. */
  function Undemanded(requested: seq<string>, demanded: set<string>): seq<string> {
    if requested == [] then []
    else
      Undemanded(requested[..|requested| - 1], demanded) +
      if requested[|requested| - 1] in demanded then [] else [requested[|requested| - 1]]
  }

  function SetOf(ids: seq<string>): set<string> {
    set id | id in ids
  }

  function ProducersOf(ids: seq<string>, byId: map<string, Input>): seq<string> {
    if ids == [] then []
    else
      var id := ids[|ids| - 1];
      ProducersOf(ids[..|ids| - 1], byId) + if id in byId && byId[id].producer.Some? then [byId[id].producer.value] else []
  }

  // ---- one round ----------------------------------------------------------

  datatype Phase =
    | Running
    | Ended(outcome: Outcome, code: Option<Code>, node: Option<string>)
    | Crashed(id: string)

  datatype Run = Run(
    demanded: set<string>,
    executed: seq<string>,
    reused: seq<string>,
    views: seq<map<string, Value>>,
    events: seq<Event>,
    phase: Phase)

  const START := Run({}, [], [], [], [], Running)

  function Append(names: seq<string>, name: string): seq<string> {
    if name in names then names else names + [name]
  }

  /** Settling the producers of newly demanded inputs, one input at a time, until one of them fails. */
  function Settle(r: Run, ids: seq<string>, byId: map<string, Input>): Run {
    if ids == [] then r
    else
      var s := Settle(r, ids[..|ids| - 1], byId);
      if !s.phase.Running? then s else SettleOne(s, ids[|ids| - 1], byId)
  }

  function SettleOne(r: Run, id: string, byId: map<string, Input>): Run {
    if id !in byId || byId[id].producer == None then r.(phase := Crashed(id))
    else
      var producer := byId[id].producer.value;
      match byId[id].producerState
      case Broken => r.(phase := Ended(Error, Some(ProducerFailed), Some(producer)))
      case Cancel => r.(phase := Ended(Cancelled, None, None))
      case Cold => r.(executed := Append(r.executed, producer))
      case _ => r.(reused := Append(r.reused, producer))
  }

  const LAZY := "lazy"

  /** The hook failed, or asked for something that cannot be granted. */
  function Stopped(r: Run, inputs: seq<Input>, code: Code): Run {
    r.(views := r.views + [Visible(inputs, r.demanded)], phase := Ended(Error, Some(code), Some(LAZY)))
  }

  function EventOf(r: Run, number: nat, requested: seq<string>, inputs: seq<Input>): Event {
    var new_ := Undemanded(requested, r.demanded);
    Event(number, new_ != [], requested, new_, Select(inputs, r.demanded + SetOf(new_)),
          SortedSet(StringLess, ProducersOf(new_, ById(inputs))))
  }

  /** A granted request is recorded, before its producers are settled. */
  function Asked(r: Run, number: nat, requested: seq<string>, inputs: seq<Input>): Run {
    r.(views := r.views + [Visible(inputs, r.demanded)],
       demanded := r.demanded + SetOf(Undemanded(requested, r.demanded)),
       events := r.events + [EventOf(r, number, requested, inputs)])
  }

  function Granted(r: Run, number: nat, requested: seq<string>, inputs: seq<Input>): Run {
    var asked, new_ := Asked(r, number, requested, inputs), Undemanded(requested, r.demanded);
    if new_ == [] then asked.(phase := Ended(Execute, None, None)) else Settle(asked, new_, ById(inputs))
  }

  /** Hook round `number`, from a running state. */
  function Step(r: Run, number: nat, round: Round, inputs: seq<Input>): Run {
    match round
    case HookError => Stopped(r, inputs, HookFailed)
    case Requests(raw) =>
      match Normalize(raw, inputs)
      case Failure(code) => Stopped(r, inputs, code)
      case Success(requested) => Granted(r, number, requested, inputs)
  }

  /** The state after the first `k` hook rounds. */
  function After(c: Case, k: nat): Run
    requires k <= |c.hookRounds|
  {
    if k == 0 then START
    else
      var r := After(c, k - 1);
      if r.phase.Running? then Step(r, k, c.hookRounds[k - 1], c.inputs) else r
  }

  lemma {:induction false} AfterStart(c: Case)
    ensures After(c, 0) == START
  {
  }

  lemma AfterNext(c: Case, k: nat)
    requires k < |c.hookRounds|
    ensures After(c, k + 1) ==
            if After(c, k).phase.Running? then Step(After(c, k), k + 1, c.hookRounds[k], c.inputs) else After(c, k)
  {
  }

  function Finish(c: Case, r: Run): Result<Answer, Crash> {
    match r.phase
    case Crashed(id) => Failure(MissingProducer(id))
    case Running => Success(Answer(Execute, None, None, Select(c.inputs, r.demanded), r.executed, r.reused, r.views, r.events))
    case Ended(outcome, code, node) =>
      Success(Answer(outcome, code, node, Select(c.inputs, r.demanded), r.executed, r.reused, r.views, r.events))
  }

  predicate Reached(c: Case) {
    LAZY in c.targets && c.staticCycle == []
  }

  function Oracle(c: Case): Result<Answer, Crash> {
    if LAZY !in c.targets then Success(Answer(NotReached, None, None, [], [], [], [], []))
    else if c.staticCycle != [] then Success(Answer(ValidationError, Some(Cycle), None, [], [], [], [], []))
    else Finish(c, After(c, |c.hookRounds|))
  }

  // ---- the program --------------------------------------------------------

  method VisibleInputs(inputs: seq<Input>, demanded: set<string>) returns (visible: map<string, Value>)
    ensures visible == Visible(inputs, demanded)
  {
    visible := map[];
    for k := 0 to |inputs|
      invariant visible == Visible(inputs[..k], demanded)
    {
      var item := inputs[k];
      assert inputs[..k + 1][..k] == inputs[..k];
      if item.binding == Omitted {
        continue;
      }
      if item.lazy && item.binding == Link && item.id !in demanded {
        visible := visible[item.id := Nothing];
      } else {
        visible := visible[item.id := item.value];
      }
    }
    assert inputs[..|inputs|] == inputs;
  }

  /** The loop over the newly demanded inputs. */
  method SettleProducers(asked: Run, new_: seq<string>, byId: map<string, Input>) returns (r: Run)
    requires asked.phase.Running?
    ensures r == Settle(asked, new_, byId)
  {
    r := asked;
    var executed, reused := asked.executed, asked.reused;
    for k := 0 to |new_|
      invariant r == asked.(executed := executed, reused := reused)
      invariant r == Settle(asked, new_[..k], byId)
    {
      var id := new_[k];
      assert new_[..k + 1][..k] == new_[..k];
      SettleStops(asked, new_, k + 1, byId);
      if id !in byId || byId[id].producer == None {
        return r.(phase := Crashed(id));
      }
      var producer, state := byId[id].producer.value, byId[id].producerState;
      if state == Broken {
        return r.(phase := Ended(Error, Some(ProducerFailed), Some(producer)));
      }
      if state == Cancel {
        return r.(phase := Ended(Cancelled, None, None));
      }
      if state == Warm || state == Incidental {
        if producer !in reused {
          reused := reused + [producer];
        }
      } else if producer !in executed {
        executed := executed + [producer];
      }
      r := asked.(executed := executed, reused := reused);
    }
    assert new_[..|new_|] == new_;
  }

  lemma {:induction false} SettleStops(r: Run, ids: seq<string>, k: nat, byId: map<string, Input>)
    requires k <= |ids|
    ensures !Settle(r, ids[..k], byId).phase.Running? ==> Settle(r, ids, byId) == Settle(r, ids[..k], byId)
    decreases |ids| - k
  {
    if k < |ids| {
      assert ids[..k + 1][..k] == ids[..k];
      SettleStops(r, ids, k + 1, byId);
    } else {
      assert ids[..k] == ids;
    }
  }

  lemma {:induction false} AfterStops(c: Case, k: nat)
    requires k <= |c.hookRounds|
    ensures !After(c, k).phase.Running? ==> After(c, |c.hookRounds|) == After(c, k)
    decreases |c.hookRounds| - k
  {
    hide After, Step;
    if k < |c.hookRounds| {
      AfterNext(c, k);
      AfterStops(c, k + 1);
    }
  }

  /** One turn of the loop over the hook rounds. */
  method RunRound(r: Run, number: nat, round: Round, inputs: seq<Input>) returns (next: Run)
    requires r.phase.Running?
    ensures next == Step(r, number, round, inputs)
  {
    var view := VisibleInputs(inputs, r.demanded);
    next := r.(views := r.views + [view]);
    if round.HookError? {
      return next.(phase := Ended(Error, Some(HookFailed), Some(LAZY)));
    }
    var normalized := Normalize(round.items, inputs);
    if normalized.Failure? {
      return next.(phase := Ended(Error, Some(normalized.error), Some(LAZY)));
    }
    var byId, requested := ById(inputs), normalized.value;
    var new_ := Undemanded(requested, r.demanded);
    var demanded := r.demanded + SetOf(new_);
    var producers := SortedSet(StringLess, ProducersOf(new_, byId));
    var event := Event(number, new_ != [], requested, new_, Select(inputs, demanded), producers);
    next := next.(demanded := demanded, events := r.events + [event]);
    if new_ == [] {
      return next.(phase := Ended(Execute, None, None));
    }
    next := SettleProducers(next, new_, byId);
  }

  method RunRounds(c: Case) returns (r: Run)
    ensures r == After(c, |c.hookRounds|)
  {
    r := START;
    var k := 0;
    while k < |c.hookRounds| && r.phase.Running?
      invariant k <= |c.hookRounds| && r == After(c, k)
    {
      var next := RunRound(r, k + 1, c.hookRounds[k], c.inputs);
      AfterNext(c, k);
      r, k := next, k + 1;
    }
    AfterStops(c, k);
  }

  method RunOracle(c: Case) returns (answer: Result<Answer, Crash>)
    ensures answer == Oracle(c)
  {
    if LAZY !in c.targets {
      return Success(Answer(NotReached, None, None, [], [], [], [], []));
    }
    if c.staticCycle != [] {
      return Success(Answer(ValidationError, Some(Cycle), None, [], [], [], [], []));
    }
    var r := RunRounds(c);
    answer := Finish(c, r);
  }
}
