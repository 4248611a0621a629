/**
  What every run of the lazy-input oracle keeps, round by round
  (docs/lazy-input-m1-contract.md, sections 4 and 5).
 */
module LazyDemandRuns {
  import opened Wrappers
  import opened Sorting
  import opened LazyDemand

  ghost predicate DistinctIds(inputs: seq<Input>) {
    forall i, j :: 0 <= i < j < |inputs| ==> inputs[i].id != inputs[j].id
  }

  // ---- lookups ------------------------------------------------------------

  lemma {:induction false} ByIdFinds(inputs: seq<Input>, i: nat)
    requires DistinctIds(inputs) && i < |inputs|
    ensures inputs[i].id in ById(inputs) && ById(inputs)[inputs[i].id] == inputs[i]
  {
    var n := |inputs| - 1;
    if i < n {
      assert inputs[..n][i] == inputs[i];
      ByIdFinds(inputs[..n], i);
    }
  }

  lemma {:induction false} ByIdIsDeclared(inputs: seq<Input>, id: string)
    requires id in ById(inputs)
    ensures ById(inputs)[id].id == id && ById(inputs)[id] in inputs
  {
    var n := |inputs| - 1;
    if id != inputs[n].id {
      ByIdIsDeclared(inputs[..n], id);
    }
  }

  /** The hook sees every input that is not omitted; a deferred link stays hidden until it is demanded, and
      everything else shows its value (contract section 4). */
  lemma {:induction false} VisibleShows(inputs: seq<Input>, demanded: set<string>, i: nat)
    requires DistinctIds(inputs) && i < |inputs|
    ensures inputs[i].id in Visible(inputs, demanded) <==> inputs[i].binding != Omitted
    ensures inputs[i].binding != Omitted ==>
              Visible(inputs, demanded)[inputs[i].id] ==
              if Deferred(inputs[i]) && inputs[i].id !in demanded then Nothing else inputs[i].value
  {
    var n := |inputs| - 1;
    if i < n {
      assert inputs[..n][i] == inputs[i];
      VisibleShows(inputs[..n], demanded, i);
      assert inputs[i].id != inputs[n].id;
    } else {
      assert forall k :: 0 <= k < |inputs[..n]| ==> inputs[..n][k].id == inputs[k].id != inputs[n].id;
      VisibleOnlyDeclared(inputs[..n], demanded, inputs[n].id);
    }
  }

  lemma {:induction false} VisibleOnlyDeclared(inputs: seq<Input>, demanded: set<string>, id: string)
    ensures id in Visible(inputs, demanded) ==> exists k :: 0 <= k < |inputs| && inputs[k].id == id
  {
    if inputs != [] {
      var n := |inputs| - 1;
      VisibleOnlyDeclared(inputs[..n], demanded, id);
      if id in Visible(inputs[..n], demanded) {
        var k :| 0 <= k < |inputs[..n]| && inputs[..n][k].id == id;
        assert inputs[k].id == id;
      } else {
        assert id in Visible(inputs, demanded) ==> inputs[n].id == id;
      }
    }
  }

  /** Position of an id in declaration order. */
  predicate Declares(inputs: seq<Input>, i: int, id: string) {
    0 <= i < |inputs| && inputs[i].id == id
  }

  /** In declaration order: an earlier name is declared before a later one. */
  ghost predicate InDeclarationOrder(inputs: seq<Input>, names: seq<string>) {
    forall i, j, p, q :: 0 <= i < j < |names| && Declares(inputs, p, names[i]) && Declares(inputs, q, names[j]) ==> p < q
  }

  lemma {:induction false} SelectSelects(inputs: seq<Input>, ids: set<string>)
    requires DistinctIds(inputs)
    ensures forall id :: id in Select(inputs, ids) <==> id in ids && exists i :: Declares(inputs, i, id)
    ensures InDeclarationOrder(inputs, Select(inputs, ids))
    ensures Distinct(Select(inputs, ids))
  {
    if inputs != [] {
      var n := |inputs| - 1;
      var shorter := inputs[..n];
      SelectSelects(shorter, ids);
      forall id, i ensures Declares(inputs, i, id) <==> Declares(shorter, i, id) || (i == n && inputs[n].id == id) {
      }
      forall id | id in Select(shorter, ids) ensures id != inputs[n].id {
        var i :| Declares(shorter, i, id);
        assert inputs[i].id == id;
      }
      var names := Select(inputs, ids);
      forall i, j, p, q | 0 <= i < j < |names| && Declares(inputs, p, names[i]) && Declares(inputs, q, names[j]) ensures p < q {
        assert names[i] in Select(shorter, ids);
        if j < |Select(shorter, ids)| {
          assert names[j] in Select(shorter, ids);
        }
      }
      forall id | id in ids && exists i :: Declares(inputs, i, id) ensures id in names {
        var i :| Declares(inputs, i, id);
        if i == n {
          assert names[|names| - 1] == id;
        } else {
          assert Declares(shorter, i, id);
          assert id in Select(shorter, ids);
        }
      }
      forall id | id in names ensures exists i :: Declares(inputs, i, id) {
        if id in Select(shorter, ids) {
          var i :| Declares(shorter, i, id);
          assert Declares(inputs, i, id);
        } else {
          assert Declares(inputs, n, id);
        }
      }
    }
  }

  lemma SetOfConcat(a: seq<string>, b: seq<string>)
    ensures SetOf(a + b) == SetOf(a) + SetOf(b)
  {
  }

  lemma {:induction false} UndemandedIsRest(requested: seq<string>, demanded: set<string>)
    requires Distinct(requested)
    ensures SetOf(Undemanded(requested, demanded)) == SetOf(requested) - demanded
    ensures Distinct(Undemanded(requested, demanded))
  {
    if requested != [] {
      var n := |requested| - 1;
      UndemandedIsRest(requested[..n], demanded);
      var shorter := Undemanded(requested[..n], demanded);
      assert requested == requested[..n] + [requested[n]];
      SetOfConcat(requested[..n], [requested[n]]);
      SetOfConcat(shorter, [requested[n]]);
      assert SetOf([requested[n]]) == {requested[n]};
      forall i | 0 <= i < |shorter| ensures shorter[i] != requested[n] {
        assert shorter[i] in SetOf(shorter);
        assert shorter[i] in requested[..n];
      }
    }
  }

  lemma {:induction false} GrantedIsDeferred(raw: seq<Item>, byId: map<string, Input>)
    requires Problem(raw, byId) == None
    ensures forall id :: id in NamesOf(raw) ==> id in byId && Deferred(byId[id])
  {
    if raw != [] {
      GrantedIsDeferred(raw[1..], byId);
      assert raw == [raw[0]] + raw[1..];
      forall id | id in NamesOf(raw) ensures id in byId && Deferred(byId[id]) {
        if Name(id) in raw[1..] {
          assert id in NamesOf(raw[1..]);
        } else {
          assert Name(id) == raw[0];
          assert byId[id].binding == Link;
        }
      }
    }
  }

  // ---- demand -------------------------------------------------------------

  /** Everything the events report as newly demanded. */
  function NewSet(events: seq<Event>): set<string> {
    if events == [] then {} else NewSet(events[..|events| - 1]) + SetOf(events[|events| - 1].new_)
  }

  function WaitingRounds(events: seq<Event>): nat {
    if events == [] then 0 else WaitingRounds(events[..|events| - 1]) + if events[|events| - 1].waiting then 1 else 0
  }

  /** One event against the events before it. */
  ghost predicate EventFits(inputs: seq<Input>, events: seq<Event>, k: int)
    requires 0 <= k < |events|
  {
    var e := events[k];
    && SetOf(e.new_) !! NewSet(events[..k])
    && Distinct(e.new_)
    && InDeclarationOrder(inputs, e.new_) && InDeclarationOrder(inputs, e.requested)
    && SetOf(e.new_) == SetOf(e.requested) - NewSet(events[..k])
    && e.demanded == Select(inputs, NewSet(events[..k + 1]))
    && (e.waiting <==> e.new_ != [])
    && (k < |events| - 1 ==> e.waiting)
  }

  ghost predicate DemandHolds(inputs: seq<Input>, r: Run) {
    && r.demanded == NewSet(r.events)
    && (forall id :: id in r.demanded ==> id in ById(inputs) && Deferred(ById(inputs)[id]))
    && (forall k :: 0 <= k < |r.events| ==> EventFits(inputs, r.events, k))
    && (r.phase.Running? ==> forall k :: 0 <= k < |r.events| ==> r.events[k].waiting)
  }

  ghost predicate ViewsHold(inputs: seq<Input>, r: Run) {
    && |r.events| <= |r.views| <= |r.events| + 1
    && (r.phase.Running? ==> |r.views| == |r.events|)
    && (forall k :: 0 <= k < |r.views| ==> r.views[k] == Visible(inputs, NewSet(r.events[..k])))
  }

  lemma {:induction false} SettleKeeps(r: Run, ids: seq<string>, byId: map<string, Input>)
    requires r.phase.Running?
    ensures var s := Settle(r, ids, byId);
            && s.demanded == r.demanded && s.views == r.views && s.events == r.events
            && (s.phase.Ended? ==> s.phase.outcome == Error || s.phase.outcome == Cancelled)
  {
    if ids != [] {
      SettleKeeps(r, ids[..|ids| - 1], byId);
    }
  }

  /** The new event of a round, before it is recorded. */
  ghost predicate NextEvent(inputs: seq<Input>, events: seq<Event>, e: Event) {
    && SetOf(e.new_) !! NewSet(events) && Distinct(e.new_)
    && InDeclarationOrder(inputs, e.new_) && InDeclarationOrder(inputs, e.requested)
    && SetOf(e.new_) == SetOf(e.requested) - NewSet(events)
    && e.demanded == Select(inputs, NewSet(events) + SetOf(e.new_)) && (e.waiting <==> e.new_ != [])
  }

  lemma {:induction false} NewSetOfAppend(events: seq<Event>, e: Event)
    ensures NewSet(events + [e]) == NewSet(events) + SetOf(e.new_)
  {
    assert (events + [e])[..|events|] == events;
  }

  lemma {:induction false} EventStillFits(inputs: seq<Input>, events: seq<Event>, e: Event, k: int)
    requires 0 <= k < |events| && EventFits(inputs, events, k) && events[k].waiting
    ensures EventFits(inputs, events + [e], k)
  {
    var all := events + [e];
    assert all[..k] == events[..k] && all[..k + 1] == events[..k + 1];
  }

  lemma {:induction false} EventsExtend(inputs: seq<Input>, events: seq<Event>, e: Event)
    requires forall k :: 0 <= k < |events| ==> EventFits(inputs, events, k) && events[k].waiting
    requires NextEvent(inputs, events, e)
    ensures forall k :: 0 <= k < |events| + 1 ==> EventFits(inputs, events + [e], k)
  {
    var all := events + [e];
    NewSetOfAppend(events, e);
    forall k | 0 <= k < |all| ensures EventFits(inputs, all, k) {
      if k < |events| {
        EventStillFits(inputs, events, e, k);
      } else {
        assert all[..|events|] == events && all[..k + 1] == all;
      }
    }
  }

  ghost predicate Precedes(names: seq<string>, a: string, b: string) {
    exists x, y :: 0 <= x < y < |names| && names[x] == a && names[y] == b
  }

  lemma {:induction false} OrderOfSubsequence(inputs: seq<Input>, requested: seq<string>, demanded: set<string>)
    requires InDeclarationOrder(inputs, requested)
    ensures InDeclarationOrder(inputs, Undemanded(requested, demanded))
  {
    var u := Undemanded(requested, demanded);
    forall i, j, p, q | 0 <= i < j < |u| && Declares(inputs, p, u[i]) && Declares(inputs, q, u[j]) ensures p < q {
      UndemandedIsSubsequence(requested, demanded, i, j);
      var x, y :| 0 <= x < y < |requested| && requested[x] == u[i] && requested[y] == u[j];
    }
  }

  lemma {:induction false} UndemandedAreRequested(requested: seq<string>, demanded: set<string>)
    ensures forall id :: id in Undemanded(requested, demanded) ==> id in requested
  {
    if requested != [] {
      UndemandedAreRequested(requested[..|requested| - 1], demanded);
    }
  }

  lemma {:induction false} UndemandedIsSubsequence(requested: seq<string>, demanded: set<string>, i: int, j: int)
    requires 0 <= i < j < |Undemanded(requested, demanded)|
    ensures Precedes(requested, Undemanded(requested, demanded)[i], Undemanded(requested, demanded)[j])
  {
    var n := |requested| - 1;
    var u, shorter := Undemanded(requested, demanded), Undemanded(requested[..n], demanded);
    if j < |shorter| {
      UndemandedIsSubsequence(requested[..n], demanded, i, j);
      var x, y :| 0 <= x < y < |requested[..n]| && requested[..n][x] == shorter[i] && requested[..n][y] == shorter[j];
      assert requested[x] == u[i] && requested[y] == u[j];
    } else {
      UndemandedAreRequested(requested[..n], demanded);
      assert shorter[i] in requested[..n];
      var x :| 0 <= x < n && requested[..n][x] == shorter[i];
      assert requested[x] == u[i] && requested[n] == u[j];
    }
  }

  lemma {:induction false} ViewIsAdded(inputs: seq<Input>, r: Run, asked: Run, e: Event)
    requires r.phase.Running? && asked.phase.Running? && ViewsHold(inputs, r) && r.demanded == NewSet(r.events)
    requires asked.views == r.views + [Visible(inputs, r.demanded)] && asked.events == r.events + [e]
    ensures ViewsHold(inputs, asked)
  {
    forall k | 0 <= k < |asked.views| ensures asked.views[k] == Visible(inputs, NewSet(asked.events[..k])) {
      assert k < |r.views| ==> asked.events[..k] == r.events[..k] && asked.views[k] == r.views[k];
      assert asked.events[..|r.events|] == r.events;
    }
  }

  /** What a granted request leaves is what was recorded, however its producers settle. */
  lemma {:induction false} GrantedIsAsked(r: Run, number: nat, requested: seq<string>, inputs: seq<Input>)
    requires r.phase.Running?
    ensures var s, asked := Granted(r, number, requested, inputs), Asked(r, number, requested, inputs);
            && s.demanded == asked.demanded && s.views == asked.views && s.events == asked.events
            && (s.phase.Running? ==> Undemanded(requested, r.demanded) != [])
            && (s.phase.Ended? && s.phase.outcome == Execute ==> Undemanded(requested, r.demanded) == [])
  {
    SettleKeeps(Asked(r, number, requested, inputs), Undemanded(requested, r.demanded), ById(inputs));
  }

  lemma {:induction false} NextEventFits(inputs: seq<Input>, r: Run, number: nat, ids: set<string>)
    requires DistinctIds(inputs) && r.demanded == NewSet(r.events)
    ensures NextEvent(inputs, r.events, EventOf(r, number, Select(inputs, ids), inputs))
  {
    SelectSelects(inputs, ids);
    UndemandedIsRest(Select(inputs, ids), r.demanded);
    OrderOfSubsequence(inputs, Select(inputs, ids), r.demanded);
  }

  lemma {:induction false} DemandStaysDeferred(inputs: seq<Input>, demanded: set<string>, raw: seq<Item>)
    requires DistinctIds(inputs) && Problem(raw, ById(inputs)) == None
    requires forall id :: id in demanded ==> id in ById(inputs) && Deferred(ById(inputs)[id])
    ensures forall id :: id in demanded + SetOf(Undemanded(Select(inputs, NamesOf(raw)), demanded)) ==>
              id in ById(inputs) && Deferred(ById(inputs)[id])
  {
    GrantedIsDeferred(raw, ById(inputs));
    SelectSelects(inputs, NamesOf(raw));
    UndemandedIsRest(Select(inputs, NamesOf(raw)), demanded);
    forall id | id in SetOf(Undemanded(Select(inputs, NamesOf(raw)), demanded)) ensures id in NamesOf(raw) {
      assert id in SetOf(Select(inputs, NamesOf(raw)));
    }
  }

  /** A granted request extends the demand by the deferred inputs that were not demanded yet. */
  lemma {:induction false} GrantExtends(inputs: seq<Input>, r: Run, number: nat, raw: seq<Item>)
    requires DistinctIds(inputs) && r.phase.Running? && DemandHolds(inputs, r) && ViewsHold(inputs, r)
    requires Problem(raw, ById(inputs)) == None
    ensures var s := Granted(r, number, Select(inputs, NamesOf(raw)), inputs); DemandHolds(inputs, s) && ViewsHold(inputs, s)
  {
    var requested := Select(inputs, NamesOf(raw));
    var e, asked := EventOf(r, number, requested, inputs), Asked(r, number, requested, inputs);
    NextEventFits(inputs, r, number, NamesOf(raw));
    EventsExtend(inputs, r.events, e);
    NewSetOfAppend(r.events, e);
    DemandStaysDeferred(inputs, r.demanded, raw);
    ViewIsAdded(inputs, r, asked, e);
    GrantedIsAsked(r, number, requested, inputs);
  }

  lemma StoppedKeeps(inputs: seq<Input>, r: Run, code: Code)
    requires r.phase.Running? && DemandHolds(inputs, r) && ViewsHold(inputs, r)
    ensures DemandHolds(inputs, Stopped(r, inputs, code)) && ViewsHold(inputs, Stopped(r, inputs, code))
  {
    assert r.events[..|r.events|] == r.events;
  }

  lemma {:induction false} StepKeeps(inputs: seq<Input>, r: Run, number: nat, round: Round)
    requires DistinctIds(inputs) && r.phase.Running? && DemandHolds(inputs, r) && ViewsHold(inputs, r)
    ensures var s := Step(r, number, round, inputs); DemandHolds(inputs, s) && ViewsHold(inputs, s)
  {
    match round {
      case HookError =>
        StoppedKeeps(inputs, r, HookFailed);
      case Requests(raw) =>
        match Problem(raw, ById(inputs)) {
          case Some(code) => StoppedKeeps(inputs, r, code);
          case None => GrantExtends(inputs, r, number, raw);
        }
    }
  }

  ghost predicate RunHolds(inputs: seq<Input>, r: Run) {
    DemandHolds(inputs, r) && ViewsHold(inputs, r)
  }

  lemma NextKeeps(c: Case, k: nat)
    requires DistinctIds(c.inputs) && k < |c.hookRounds| && RunHolds(c.inputs, After(c, k))
    ensures RunHolds(c.inputs, After(c, k + 1))
  {
    hide After, Step;
    AfterNext(c, k);
    if After(c, k).phase.Running? {
      StepKeeps(c.inputs, After(c, k), k + 1, c.hookRounds[k]);
    }
  }

  lemma {:induction false} StartHolds(c: Case)
    ensures RunHolds(c.inputs, After(c, 0))
  {
  }

  lemma {:induction false} AfterKeeps(c: Case, k: nat)
    requires DistinctIds(c.inputs) && k <= |c.hookRounds|
    ensures RunHolds(c.inputs, After(c, k))
  {
    hide *;
    if k == 0 {
      StartHolds(c);
    } else {
      AfterKeeps(c, k - 1);
      NextKeeps(c, k - 1);
    }
  }

  // ---- the bound on rounds ------------------------------------------------

  function DeferredCount(inputs: seq<Input>): nat {
    if inputs == [] then 0 else DeferredCount(inputs[..|inputs| - 1]) + if Deferred(inputs[|inputs| - 1]) then 1 else 0
  }

  function DeferredIds(inputs: seq<Input>): set<string> {
    set i | i in inputs && Deferred(i) :: i.id
  }

  lemma {:induction false} DeferredIdsAreFew(inputs: seq<Input>)
    ensures |DeferredIds(inputs)| <= DeferredCount(inputs)
  {
    if inputs == [] {
      assert DeferredIds(inputs) == {};
    } else {
      var n := |inputs| - 1;
      DeferredIdsAreFew(inputs[..n]);
      assert inputs == inputs[..n] + [inputs[n]];
      assert DeferredIds(inputs) == DeferredIds(inputs[..n]) + if Deferred(inputs[n]) then {inputs[n].id} else {};
    }
  }

  /** Every waiting round adds at least one deferred input. */
  lemma {:induction false} WaitingRoundsAreFew(events: seq<Event>)
    requires forall k :: 0 <= k < |events| ==> SetOf(events[k].new_) !! NewSet(events[..k])
    requires forall k :: 0 <= k < |events| ==> (events[k].waiting ==> events[k].new_ != [])
    ensures WaitingRounds(events) <= |NewSet(events)|
  {
    if events != [] {
      var n := |events| - 1;
      var shorter, e := events[..n], events[n];
      forall k | 0 <= k < n ensures shorter[..k] == events[..k] {
      }
      WaitingRoundsAreFew(shorter);
      assert |NewSet(events)| == |NewSet(shorter)| + |SetOf(e.new_)|;
      if e.waiting {
        assert e.new_[0] in SetOf(e.new_);
      }
    }
  }

  lemma {:induction false} AllButLastWait(events: seq<Event>)
    requires forall k :: 0 <= k < |events| ==> events[k].waiting
    ensures WaitingRounds(events) == |events|
  {
    if events != [] {
      AllButLastWait(events[..|events| - 1]);
    }
  }

  lemma {:induction false} WaitingIsBounded(inputs: seq<Input>, r: Run)
    requires DemandHolds(inputs, r)
    ensures WaitingRounds(r.events) <= DeferredCount(inputs)
  {
    forall k | 0 <= k < |r.events| ensures SetOf(r.events[k].new_) !! NewSet(r.events[..k]) && (r.events[k].waiting ==> r.events[k].new_ != []) {
      assert EventFits(inputs, r.events, k);
    }
    WaitingRoundsAreFew(r.events);
    forall id | id in r.demanded ensures id in DeferredIds(inputs) {
      ByIdIsDeclared(inputs, id);
    }
    SubsetIsSmaller(r.demanded, DeferredIds(inputs));
    DeferredIdsAreFew(inputs);
  }

  lemma {:induction false} SubsetIsSmaller(a: set<string>, b: set<string>)
    requires a <= b
    ensures |a| <= |b|
  {
    if a != {} {
      var x :| x in a;
      SubsetIsSmaller(a - {x}, b - {x});
    }
  }

  // ---- producers ----------------------------------------------------------

  predicate SuppliedBy(byId: map<string, Input>, id: string, producer: string, fresh_: bool) {
    id in byId && byId[id].producer == Some(producer) &&
    (if fresh_ then byId[id].producerState == Cold else byId[id].producerState == Warm || byId[id].producerState == Incidental)
  }

  /** The producers that feed the given inputs and have to run (`fresh_`), or are replayed. */
  ghost predicate Feeds(byId: map<string, Input>, ids: set<string>, producer: string, fresh_: bool) {
    exists id :: id in ids && SuppliedBy(byId, id, producer, fresh_)
  }

  ghost predicate Used(byId: map<string, Input>, ids: set<string>, r: Run) {
    && Distinct(r.executed) && Distinct(r.reused)
    && (forall p :: p in r.executed <==> Feeds(byId, ids, p, true))
    && (forall p :: p in r.reused <==> Feeds(byId, ids, p, false))
  }

  /** What stays true when a run ends early. */
  ghost predicate UsedAtMost(byId: map<string, Input>, ids: set<string>, r: Run) {
    && Distinct(r.executed) && Distinct(r.reused)
    && (forall p :: p in r.executed ==> Feeds(byId, ids, p, true))
    && (forall p :: p in r.reused ==> Feeds(byId, ids, p, false))
  }

  lemma FeedsGrows(byId: map<string, Input>, ids: set<string>, id: string, p: string, fresh_: bool)
    ensures Feeds(byId, ids + {id}, p, fresh_) <==> Feeds(byId, ids, p, fresh_) || SuppliedBy(byId, id, p, fresh_)
  {
    if SuppliedBy(byId, id, p, fresh_) {
      assert id in ids + {id};
    }
    if Feeds(byId, ids, p, fresh_) {
      var other :| other in ids && SuppliedBy(byId, other, p, fresh_);
      assert other in ids + {id};
    }
  }

  lemma SettleOneUses(byId: map<string, Input>, ids: set<string>, r: Run, id: string)
    requires r.phase.Running? && Used(byId, ids, r)
    ensures var s := SettleOne(r, id, byId);
            (s.phase.Running? ==> Used(byId, ids + {id}, s)) && UsedAtMost(byId, ids + {id}, s)
  {
    forall p ensures Feeds(byId, ids + {id}, p, true) <==> Feeds(byId, ids, p, true) || SuppliedBy(byId, id, p, true) {
      FeedsGrows(byId, ids, id, p, true);
    }
    forall p ensures Feeds(byId, ids + {id}, p, false) <==> Feeds(byId, ids, p, false) || SuppliedBy(byId, id, p, false) {
      FeedsGrows(byId, ids, id, p, false);
    }
  }

  lemma MoreIdsFeedMore(byId: map<string, Input>, ids: set<string>, more: set<string>, r: Run)
    requires UsedAtMost(byId, ids, r) && ids <= more
    ensures UsedAtMost(byId, more, r)
  {
    forall p, f | Feeds(byId, ids, p, f) ensures Feeds(byId, more, p, f) {
      var other :| other in ids && SuppliedBy(byId, other, p, f);
      assert other in more;
    }
  }

  lemma {:induction false} SettleUses(byId: map<string, Input>, ids: set<string>, r: Run, new_: seq<string>)
    requires r.phase.Running? && Used(byId, ids, r)
    ensures var s := Settle(r, new_, byId);
            && (s.phase.Running? ==> Used(byId, ids + SetOf(new_), s))
            && UsedAtMost(byId, ids + SetOf(new_), s)
  {
    if new_ == [] {
      assert ids + SetOf(new_) == ids;
    } else {
      var n := |new_| - 1;
      var s, all := Settle(r, new_[..n], byId), ids + SetOf(new_[..n]);
      SettleUses(byId, ids, r, new_[..n]);
      assert new_ == new_[..n] + [new_[n]];
      SetOfConcat(new_[..n], [new_[n]]);
      assert ids + SetOf(new_) == all + {new_[n]};
      if s.phase.Running? {
        SettleOneUses(byId, all, s, new_[n]);
      } else {
        MoreIdsFeedMore(byId, all, all + {new_[n]}, s);
      }
    }
  }

  ghost predicate ProducersHold(inputs: seq<Input>, r: Run) {
    && UsedAtMost(ById(inputs), r.demanded, r)
    && (r.phase.Running? || (r.phase.Ended? && r.phase.outcome == Execute) ==> Used(ById(inputs), r.demanded, r))
  }

  lemma GrantedUses(inputs: seq<Input>, r: Run, number: nat, requested: seq<string>)
    requires r.phase.Running? && ProducersHold(inputs, r)
    ensures ProducersHold(inputs, Granted(r, number, requested, inputs))
  {
    var asked, new_ := Asked(r, number, requested, inputs), Undemanded(requested, r.demanded);
    GrantedIsAsked(r, number, requested, inputs);
    if new_ == [] {
      assert asked.demanded == r.demanded;
    } else {
      SettleUses(ById(inputs), r.demanded, asked, new_);
    }
  }

  lemma StepUses(inputs: seq<Input>, r: Run, number: nat, round: Round)
    requires r.phase.Running? && ProducersHold(inputs, r)
    ensures ProducersHold(inputs, Step(r, number, round, inputs))
  {
    if round.Requests? && Problem(round.items, ById(inputs)) == None {
      GrantedUses(inputs, r, number, Select(inputs, NamesOf(round.items)));
    }
  }

  lemma NextUses(c: Case, k: nat)
    requires k < |c.hookRounds| && ProducersHold(c.inputs, After(c, k))
    ensures ProducersHold(c.inputs, After(c, k + 1))
  {
    hide After, Step;
    AfterNext(c, k);
    if After(c, k).phase.Running? {
      StepUses(c.inputs, After(c, k), k + 1, c.hookRounds[k]);
    }
  }

  lemma {:induction false} StartUses(c: Case)
    ensures ProducersHold(c.inputs, After(c, 0))
  {
  }

  lemma {:induction false} AfterUses(c: Case, k: nat)
    requires k <= |c.hookRounds|
    ensures ProducersHold(c.inputs, After(c, k))
  {
    hide *;
    if k == 0 {
      StartUses(c);
    } else {
      AfterUses(c, k - 1);
      NextUses(c, k - 1);
    }
  }

  // ---- every run ----------------------------------------------------------

  /** The laws of a finished run, in terms of its answer. */
  ghost predicate Lawful(inputs: seq<Input>, a: Answer) {
    var demanded := NewSet(a.events);
    && a.demanded == Select(inputs, demanded)
    && (forall id :: id in demanded ==> id in ById(inputs) && Deferred(ById(inputs)[id]))
    && (forall k :: 0 <= k < |a.events| ==> EventFits(inputs, a.events, k))
    && (forall k :: 0 <= k < |a.views| ==> k <= |a.events| && a.views[k] == Visible(inputs, NewSet(a.events[..k])))
    && WaitingRounds(a.events) <= DeferredCount(inputs)
    && |a.views| <= DeferredCount(inputs) + 1
    && Distinct(a.executed) && Distinct(a.reused)
    && (forall p :: p in a.executed ==> Feeds(ById(inputs), demanded, p, true))
    && (forall p :: p in a.reused ==> Feeds(ById(inputs), demanded, p, false))
    && (a.outcome == Execute ==>
          && (forall p :: Feeds(ById(inputs), demanded, p, true) ==> p in a.executed)
          && (forall p :: Feeds(ById(inputs), demanded, p, false) ==> p in a.reused))
  }

  lemma NextIsBounded(c: Case, k: nat)
    requires DistinctIds(c.inputs) && k < |c.hookRounds| && After(c, k).phase.Running?
    ensures |After(c, k + 1).views| <= DeferredCount(c.inputs) + 1
  {
    hide After, Step;
    var r := After(c, k);
    AfterKeeps(c, k);
    AfterNext(c, k);
    AllButLastWait(r.events);
    WaitingIsBounded(c.inputs, r);
    StepAddsOneView(r, k + 1, c.hookRounds[k], c.inputs);
  }

  lemma {:induction false} HookRoundsAreBounded(c: Case, k: nat)
    requires DistinctIds(c.inputs) && k <= |c.hookRounds|
    ensures |After(c, k).views| <= DeferredCount(c.inputs) + 1
  {
    hide Step, After;
    if k == 0 {
      AfterStart(c);
    } else {
      if After(c, k - 1).phase.Running? {
        NextIsBounded(c, k - 1);
      } else {
        AfterNext(c, k - 1);
        HookRoundsAreBounded(c, k - 1);
      }
    }
  }

  lemma StepAddsOneView(r: Run, number: nat, round: Round, inputs: seq<Input>)
    requires r.phase.Running?
    ensures |Step(r, number, round, inputs).views| == |r.views| + 1
  {
    if round.Requests? && Problem(round.items, ById(inputs)) == None {
      GrantedIsAsked(r, number, Select(inputs, NamesOf(round.items)), inputs);
    }
  }

  /** Only deferred links are demanded, each in exactly one round; every view hides exactly the deferred
      links without demand; there are at most as many waiting rounds as deferred links and one hook call
      more; producers run or are replayed once each, for demanded inputs only, and in a run that executes
      for every one of them. */
  lemma EveryRunIsLawful(c: Case)
    requires DistinctIds(c.inputs) && Oracle(c).Success?
    ensures Lawful(c.inputs, Oracle(c).value)
  {
    if Reached(c) {
      var r := After(c, |c.hookRounds|);
      AfterKeeps(c, |c.hookRounds|);
      AfterUses(c, |c.hookRounds|);
      WaitingIsBounded(c.inputs, r);
      HookRoundsAreBounded(c, |c.hookRounds|);
    } else {
      assert Select(c.inputs, {}) == [] by {
        SelectNothing(c.inputs);
      }
    }
  }

  lemma {:induction false} SelectNothing(inputs: seq<Input>)
    ensures Select(inputs, {}) == []
  {
    if inputs != [] {
      SelectNothing(inputs[..|inputs| - 1]);
    }
  }

  // ---- runs that end in a refusal -------------------------------------------

  /** The codes of a hook round that failed or asked for something that cannot be demanded. */
  predicate Refuses(code: Code) {
    code != Cycle && code != ProducerFailed
  }

  lemma {:induction false} AfterPrefix(c: Case, m: nat, k: nat)
    requires k <= m <= |c.hookRounds|
    ensures After(c.(hookRounds := c.hookRounds[..m]), k) == After(c, k)
  {
    if k > 0 {
      AfterPrefix(c, m, k - 1);
      AfterNext(c, k - 1);
      AfterNext(c.(hookRounds := c.hookRounds[..m]), k - 1);
    }
  }

  lemma {:induction false} SettleNeverRefuses(r: Run, ids: seq<string>, byId: map<string, Input>)
    requires r.phase.Running?
    ensures var s := Settle(r, ids, byId); s.phase.Ended? && s.phase.code.Some? ==> !Refuses(s.phase.code.value)
  {
    if ids != [] {
      SettleNeverRefuses(r, ids[..|ids| - 1], byId);
    }
  }

  predicate EndsRefused(r: Run) {
    r.phase.Ended? && r.phase.code.Some? && Refuses(r.phase.code.value)
  }

  /** A round whose result is a refusal changes nothing but the list of views. */
  lemma {:induction false} RefusalIsOneView(r: Run, number: nat, round: Round, inputs: seq<Input>)
    requires r.phase.Running? && EndsRefused(Step(r, number, round, inputs))
    ensures var s := Step(r, number, round, inputs);
            s == r.(views := r.views + [Visible(inputs, r.demanded)], phase := s.phase)
  {
    if round.Requests? && Problem(round.items, ById(inputs)) == None {
      var requested := Select(inputs, NamesOf(round.items));
      SettleNeverRefuses(Asked(r, number, requested, inputs), Undemanded(requested, r.demanded), ById(inputs));
    }
  }

  lemma {:induction false} LastRound(c: Case, k: nat) returns (last: nat)
    requires k <= |c.hookRounds| && !After(c, k).phase.Running?
    ensures last < k && After(c, last).phase.Running?
    ensures After(c, k) == Step(After(c, last), last + 1, c.hookRounds[last], c.inputs)
  {
    hide Step, After;
    if k == 0 {
      AfterStart(c);
      assert false;
    }
    AfterNext(c, k - 1);
    if After(c, k - 1).phase.Running? {
      last := k - 1;
    } else {
      last := LastRound(c, k - 1);
    }
  }

  lemma {:induction false} RefusedIsReached(c: Case)
    requires Oracle(c).Success? && Oracle(c).value.errorCode.Some? && Refuses(Oracle(c).value.errorCode.value)
    ensures Reached(c)
    ensures var r := After(c, |c.hookRounds|);
            EndsRefused(r) && Oracle(c) == Finish(c, r)
  {
  }

  /** The run that stops after `k` rounds in which nothing failed. */
  lemma {:induction false} ShortRun(c: Case, k: nat)
    requires Reached(c) && k <= |c.hookRounds| && After(c, k).phase.Running?
    ensures var r := After(c, k);
            Oracle(c.(hookRounds := c.hookRounds[..k])) ==
            Success(Answer(Execute, None, None, Select(c.inputs, r.demanded), r.executed, r.reused, r.views, r.events))
  {
    AfterPrefix(c, k, k);
    var d := c.(hookRounds := c.hookRounds[..k]);
    assert Oracle(d) == Finish(d, After(d, k));
  }

  lemma RefusedAnswer(c: Case, r: Run, phase: Phase)
    requires r.phase.Running? && phase.Ended?
    ensures var view := Visible(c.inputs, r.demanded);
            Finish(c, r.(views := r.views + [view], phase := phase)) ==
            Success(Answer(phase.outcome, phase.code, phase.node, Select(c.inputs, r.demanded), r.executed, r.reused,
                           r.views + [view], r.events))
  {
  }

  /** A run that ends in a failed hook or a refused request demanded, executed and replayed exactly what the run
      without that round and the later ones does, and showed one more view. */
  lemma RefusedRunStopsShort(c: Case) returns (k: nat)
    requires Oracle(c).Success? && Oracle(c).value.errorCode.Some? && Refuses(Oracle(c).value.errorCode.value)
    ensures k < |c.hookRounds| && Oracle(c.(hookRounds := c.hookRounds[..k])).Success?
    ensures var a, b := Oracle(c).value, Oracle(c.(hookRounds := c.hookRounds[..k])).value;
            && b.outcome == Execute && b.errorCode == None
            && a.demanded == b.demanded && a.events == b.events && a.executed == b.executed && a.reused == b.reused
            && a.views == b.views + [Visible(c.inputs, NewSet(b.events))]
  {
    hide After, Step, Oracle, Finish, Visible, Select, NewSet;
    RefusedIsReached(c);
    k := LastRound(c, |c.hookRounds|);
    var r, phase := After(c, k), After(c, |c.hookRounds|).phase;
    RefusalIsOneView(r, k + 1, c.hookRounds[k], c.inputs);
    RefusedAnswer(c, r, phase);
    ShortRun(c, k);
    AfterDemands(c, k);
  }

  lemma StepDemands(r: Run, number: nat, round: Round, inputs: seq<Input>)
    requires r.phase.Running? && r.demanded == NewSet(r.events)
    ensures Step(r, number, round, inputs).demanded == NewSet(Step(r, number, round, inputs).events)
  {
    if round.Requests? && Problem(round.items, ById(inputs)) == None {
      var requested := Select(inputs, NamesOf(round.items));
      NewSetOfAppend(r.events, EventOf(r, number, requested, inputs));
      GrantedIsAsked(r, number, requested, inputs);
    }
  }

  lemma NextDemands(c: Case, k: nat)
    requires k < |c.hookRounds| && After(c, k).demanded == NewSet(After(c, k).events)
    ensures After(c, k + 1).demanded == NewSet(After(c, k + 1).events)
  {
    hide After, Step;
    AfterNext(c, k);
    if After(c, k).phase.Running? {
      StepDemands(After(c, k), k + 1, c.hookRounds[k], c.inputs);
    }
  }

  lemma {:induction false} StartDemands(c: Case)
    ensures After(c, 0).demanded == NewSet(After(c, 0).events)
  {
  }

  lemma {:induction false} AfterDemands(c: Case, k: nat)
    requires k <= |c.hookRounds|
    ensures After(c, k).demanded == NewSet(After(c, k).events)
  {
    hide *;
    if k == 0 {
      StartDemands(c);
    } else {
      AfterDemands(c, k - 1);
      NextDemands(c, k - 1);
    }
  }

  // ---- executed and reused --------------------------------------------------

  /** Being executed and being replayed do not exclude each other: in a run that executes, a producer is in
      both lists exactly when it feeds one demanded input cold and another one from a cache. */
  lemma ProducerInBothLists(c: Case, p: string)
    requires DistinctIds(c.inputs) && Oracle(c).Success? && Oracle(c).value.outcome == Execute
    ensures var a := Oracle(c).value;
            p in a.executed && p in a.reused <==>
            Feeds(ById(c.inputs), NewSet(a.events), p, true) && Feeds(ById(c.inputs), NewSet(a.events), p, false)
  {
    EveryRunIsLawful(c);
  }

  /** A lazy link whose producer has to run (`fresh_`), or is replayed. */
  predicate Supplies(i: Input, producer: string, fresh_: bool) {
    Deferred(i) && i.producer == Some(producer) &&
    (if fresh_ then i.producerState == Cold else i.producerState == Warm || i.producerState == Incidental)
  }

  /** Some producer feeds one lazy link cold and another from a cache. */
  ghost predicate SharesProducer(inputs: seq<Input>) {
    exists p, i, j :: 0 <= i < |inputs| && 0 <= j < |inputs| && Supplies(inputs[i], p, true) && Supplies(inputs[j], p, false)
  }

  ghost predicate ListsOverlap(a: Answer) {
    exists p :: p in a.executed && p in a.reused
  }

  lemma FedByLazyLink(inputs: seq<Input>, ids: set<string>, p: string, fresh_: bool) returns (i: nat)
    requires DistinctIds(inputs) && Feeds(ById(inputs), ids, p, fresh_)
    requires forall id :: id in ids ==> id in ById(inputs) && Deferred(ById(inputs)[id])
    ensures i < |inputs| && Supplies(inputs[i], p, fresh_)
  {
    var id :| id in ids && SuppliedBy(ById(inputs), id, p, fresh_);
    ByIdIsDeclared(inputs, id);
    i :| 0 <= i < |inputs| && inputs[i] == ById(inputs)[id];
  }

  /** An overlap in any run, finished or not, comes from a shared producer. */
  lemma OverlapIsShared(c: Case)
    requires DistinctIds(c.inputs) && Oracle(c).Success? && ListsOverlap(Oracle(c).value)
    ensures SharesProducer(c.inputs)
  {
    EveryRunIsLawful(c);
    var a := Oracle(c).value;
    var p :| p in a.executed && p in a.reused;
    var i := FedByLazyLink(c.inputs, NewSet(a.events), p, true);
    var j := FedByLazyLink(c.inputs, NewSet(a.events), p, false);
    assert Supplies(c.inputs[i], p, true) && Supplies(c.inputs[j], p, false);
  }

  /** The case whose hook asks for two inputs at once. */
  function AskFor(inputs: seq<Input>, a: string, b: string): Case {
    Case([LAZY], "serial", "cold", inputs, [Requests([Name(a), Name(b)])], [])
  }

  lemma {:induction false} PairIsGranted(a: string, b: string, byId: map<string, Input>)
    requires a in byId && Deferred(byId[a]) && b in byId && Deferred(byId[b])
    ensures Problem([Name(a), Name(b)], byId) == None
  {
    var raw := [Name(a), Name(b)];
    assert raw[1..] == [Name(b)] && [Name(b)][1..] == [];
    assert ItemProblem(Name(a), byId) == None && ItemProblem(Name(b), byId) == None;
    assert Problem([Name(b)], byId) == None;
  }

  lemma PairIsNamed(a: string, b: string)
    ensures NamesOf([Name(a), Name(b)]) == {a, b}
  {
    var raw := [Name(a), Name(b)];
    assert raw[0] == Name(a) && raw[1] == Name(b);
    assert Name(a) in raw && Name(b) in raw;
    assert a in NamesOf(raw) && b in NamesOf(raw);
  }

  lemma {:induction false} SettledKeepsRunning(r: Run, ids: seq<string>, byId: map<string, Input>)
    requires r.phase.Running?
    requires forall id :: id in ids ==>
               id in byId && byId[id].producer.Some? && byId[id].producerState != Broken && byId[id].producerState != Cancel
    ensures Settle(r, ids, byId).phase.Running?
  {
    if ids != [] {
      var n := |ids| - 1;
      assert ids == ids[..n] + [ids[n]];
      SettledKeepsRunning(r, ids[..n], byId);
    }
  }

  lemma {:induction false} PairIsSelected(inputs: seq<Input>, i: nat, j: nat)
    requires DistinctIds(inputs) && i < |inputs| && j < |inputs|
    ensures var pair := {inputs[i].id, inputs[j].id}; SetOf(Undemanded(Select(inputs, pair), {})) == pair
  {
    hide Undemanded, Select, InDeclarationOrder;
    var pair := {inputs[i].id, inputs[j].id};
    SelectSelects(inputs, pair);
    UndemandedIsRest(Select(inputs, pair), {});
    assert Declares(inputs, i, inputs[i].id) && Declares(inputs, j, inputs[j].id);
    assert SetOf(Select(inputs, pair)) == pair;
  }

  lemma {:induction false} PairIsAsked(inputs: seq<Input>, a: string, b: string)
    requires a in ById(inputs) && Deferred(ById(inputs)[a]) && b in ById(inputs) && Deferred(ById(inputs)[b])
    ensures After(AskFor(inputs, a, b), 1) == Granted(START, 1, Select(inputs, {a, b}), inputs)
  {
    AfterNext(AskFor(inputs, a, b), 0);
    PairIsGranted(a, b, ById(inputs));
    PairIsNamed(a, b);
  }

  /** A granted request whose producers all yield leaves the run going, with the request demanded. */
  lemma {:induction false} YieldingRequestRuns(inputs: seq<Input>, requested: seq<string>)
    requires Undemanded(requested, {}) != []
    requires forall id :: id in Undemanded(requested, {}) ==>
               id in ById(inputs) && ById(inputs)[id].producer.Some?
               && ById(inputs)[id].producerState != Broken && ById(inputs)[id].producerState != Cancel
    ensures var r := Granted(START, 1, requested, inputs); r.phase.Running? && r.demanded == SetOf(Undemanded(requested, {}))
  {
    hide Settle, Undemanded;
    SettledKeepsRunning(Asked(START, 1, requested, inputs), Undemanded(requested, {}), ById(inputs));
    GrantedIsAsked(START, 1, requested, inputs);
  }

  /** Both inputs are demanded, and the run goes on. */
  lemma {:induction false} PairRuns(inputs: seq<Input>, p: string, i: nat, j: nat)
    requires DistinctIds(inputs) && i < |inputs| && j < |inputs|
    requires Supplies(inputs[i], p, true) && Supplies(inputs[j], p, false)
    ensures var r := Granted(START, 1, Select(inputs, {inputs[i].id, inputs[j].id}), inputs);
            r.phase.Running? && r.demanded == {inputs[i].id, inputs[j].id}
  {
    hide Granted, Undemanded, Select, ById;
    var requested := Select(inputs, {inputs[i].id, inputs[j].id});
    ByIdFinds(inputs, i);
    ByIdFinds(inputs, j);
    PairIsSelected(inputs, i, j);
    forall id | id in Undemanded(requested, {}) ensures id == inputs[i].id || id == inputs[j].id {
      assert id in SetOf(Undemanded(requested, {}));
    }
    assert inputs[i].id in SetOf(Undemanded(requested, {}));
    YieldingRequestRuns(inputs, requested);
  }

  /** Asking for a cold and a cached input of one producer lists the producer twice. */
  lemma AskingOverlaps(inputs: seq<Input>, p: string, i: nat, j: nat)
    requires DistinctIds(inputs) && i < |inputs| && j < |inputs|
    requires Supplies(inputs[i], p, true) && Supplies(inputs[j], p, false)
    ensures var c := AskFor(inputs, inputs[i].id, inputs[j].id); Oracle(c).Success? && ListsOverlap(Oracle(c).value)
  {
    var a, b := inputs[i].id, inputs[j].id;
    var c := AskFor(inputs, a, b);
    ByIdFinds(inputs, i);
    ByIdFinds(inputs, j);
    PairIsAsked(inputs, a, b);
    PairRuns(inputs, p, i, j);
    AfterUses(c, 1);
    assert Oracle(c) == Finish(c, After(c, 1));
    OverlapOfUsed(ById(inputs), After(c, 1), p, a, b);
  }

  lemma OverlapOfUsed(byId: map<string, Input>, r: Run, p: string, a: string, b: string)
    requires Used(byId, r.demanded, r) && a in r.demanded && b in r.demanded
    requires SuppliedBy(byId, a, p, true) && SuppliedBy(byId, b, p, false)
    ensures p in r.executed && p in r.reused
  {
    assert Feeds(byId, r.demanded, p, true) && Feeds(byId, r.demanded, p, false);
  }

  /** Whatever the hook answers, no producer is both executed and reused: this holds exactly when no producer
      feeds one lazy link cold and another from a cache. */
  lemma ListsAreDisjointExactly(inputs: seq<Input>)
    requires DistinctIds(inputs)
    ensures (forall c: Case :: c.inputs == inputs && Oracle(c).Success? ==> !ListsOverlap(Oracle(c).value))
       <==> !SharesProducer(inputs)
  {
    forall c: Case | c.inputs == inputs && Oracle(c).Success? && ListsOverlap(Oracle(c).value) ensures SharesProducer(inputs) {
      OverlapIsShared(c);
    }
    if SharesProducer(inputs) {
      var p, i, j :| 0 <= i < |inputs| && 0 <= j < |inputs| && Supplies(inputs[i], p, true) && Supplies(inputs[j], p, false);
      AskingOverlaps(inputs, p, i, j);
      var c := AskFor(inputs, inputs[i].id, inputs[j].id);
      assert c.inputs == inputs && Oracle(c).Success? && ListsOverlap(Oracle(c).value);
    }
  }

  function SharedProducerCase(): Case {
    Case([LAZY], "serial", "warm",
         [Input("a", Link, true, Just("A"), Some("p"), Cold), Input("b", Link, true, Just("B"), Some("p"), Warm)],
         [Requests([Name("a"), Name("b")])], [])
  }

  lemma SharedInputs()
    ensures var c := SharedProducerCase();
            ById(c.inputs) == map["a" := c.inputs[0], "b" := c.inputs[1]]
  {
    var inputs := SharedProducerCase().inputs;
    assert inputs[..1] == [inputs[0]] && inputs[..1][..0] == [];
    assert ById(inputs[..1]) == map["a" := inputs[0]];
  }

  lemma SharedRequest()
    ensures var c := SharedProducerCase();
            Normalize(c.hookRounds[0].items, c.inputs) == Success(["a", "b"])
  {
    var c := SharedProducerCase();
    var raw, inputs := c.hookRounds[0].items, c.inputs;
    SharedInputs();
    assert raw[1..] == [Name("b")] && raw[1..][1..] == [];
    assert ItemProblem(raw[0], ById(inputs)) == None && ItemProblem(raw[1], ById(inputs)) == None;
    assert Problem(raw[1..], ById(inputs)) == None;
    assert Problem(raw, ById(inputs)) == None;
    var ids := NamesOf(raw);
    assert raw[0] in raw && raw[1] in raw && "a" in ids && "b" in ids;
    assert inputs[..1] == [inputs[0]] && inputs[..1][..0] == [];
    assert Select(inputs[..1], ids) == ["a"];
    assert inputs[|inputs| - 1].id == "b" && inputs[..|inputs| - 1] == inputs[..1];
    assert Select(inputs, ids) == ["a"] + ["b"] == ["a", "b"];
    assert Normalize(raw, inputs) == Success(Select(inputs, ids));
  }

  lemma {:induction false} SharedSettles(asked: Run)
    requires asked.phase.Running? && asked.executed == [] && asked.reused == []
    ensures Settle(asked, ["a", "b"], ById(SharedProducerCase().inputs)) == asked.(executed := ["p"], reused := ["p"])
  {
    SharedInputs();
    var byId := ById(SharedProducerCase().inputs);
    assert ["a", "b"][..1] == ["a"] && ["a"][..0] == [];
    assert Settle(asked, ["a"], byId) == asked.(executed := ["p"]);
  }

  lemma SharedUndemanded()
    ensures Undemanded(["a", "b"], {}) == ["a", "b"]
  {
    assert ["a", "b"][..1] == ["a"] && ["a"][..0] == [];
    assert Undemanded(["a"], {}) == ["a"];
  }

  lemma SharedStep()
    ensures var s := Step(START, 1, SharedProducerCase().hookRounds[0], SharedProducerCase().inputs);
            s.phase.Running? && s.executed == ["p"] && s.reused == ["p"]
  {
    var c := SharedProducerCase();
    SharedRequest();
    SharedUndemanded();
    SharedSettles(Asked(START, 1, ["a", "b"], c.inputs));
  }

  /** One hook answer that demands two outputs of one producer, one of them cached: the producer is listed
      as executed and as reused. */
  lemma SharedProducerIsListedTwice()
    ensures Oracle(SharedProducerCase()).Success?
    ensures Oracle(SharedProducerCase()).value.executed == ["p"] == Oracle(SharedProducerCase()).value.reused
  {
    var c := SharedProducerCase();
    SharedStep();
    assert After(c, 0) == START;
    AfterNext(c, 0);
    assert |c.hookRounds| == 1;
  }
}
