/** Outbound transactions of a card: labels, the pending list, and the ways a transaction ends,
    as interleaved steps.

    Every transaction that is ever sent has a number; the list holds the numbers of the pending
    ones.  The steps of sending are apart, since the card's lock is released in between.
 */
module Transactions {
  import opened Basics

  const LABELS: nat := 64

  datatype Phase = Sending | Listed | Closed
  datatype Timer = Off | Armed | Expired

  /** struct fw_transaction; `callbacks` counts how often its owner was called back. */
  datatype Txn = Txn(nodeId: nat, tlabel: nat, phase: Phase, isSplit: bool, timer: Timer, callbacks: nat)

  datatype State = State(mask: set<nat>, current: nat, list: seq<nat>, txns: seq<Txn>)

  predicate Live(s: State, id: nat) { id < |s.txns| && !s.txns[id].phase.Closed? }

  // ---- label allocation ----------------------------------------------------

  /** The first free label from `l` on, going round once. */
  function FreeLabel(mask: set<nat>, l: nat, tries: nat): (r: Option<nat>)
    requires l < LABELS
    ensures r.Some? ==> r.value < LABELS && r.value !in mask
    decreases tries
  {
    if tries == 0 then None
    else if l !in mask then Some(l)
    else FreeLabel(mask, (l + 1) % LABELS, tries - 1)
  }

  lemma {:induction false} FreeLabelComplete(mask: set<nat>, l: nat, tries: nat, k: nat)
    requires l < LABELS && k < tries && (l + k) % LABELS !in mask
    ensures FreeLabel(mask, l, tries).Some?
    decreases tries
  {
    if l in mask {
      assert k > 0;
      assert ((l + 1) % LABELS + (k - 1)) % LABELS == (l + k) % LABELS;
      FreeLabelComplete(mask, (l + 1) % LABELS, tries - 1, k - 1);
    }
  }

  /** Allocation fails exactly if all labels are in use. */
  lemma LabelExhausted(mask: set<nat>, l: nat)
    requires l < LABELS
    ensures FreeLabel(mask, l, LABELS).None? <==> forall x: nat | x < LABELS :: x in mask
  {
    forall x: nat | x < LABELS && x !in mask ensures FreeLabel(mask, l, LABELS).Some? {
      FreeLabelComplete(mask, l, LABELS, (x + LABELS - l) % LABELS);
    }
  }

  // ---- steps ---------------------------------------------------------------

  datatype Op =
    | Send(nodeId: nat)
    | Enqueue(id: nat)
    | Pending(id: nat)
    | Close(id: nat)
    | Response(source: nat, tlabel: nat)
    | Expire(id: nat)
    | Timeout(id: nat)

  /** remove_transaction_entry, for a timer that is not going to run any more. */
  function Removed(s: State, id: nat): State
    requires id < |s.txns|
  {
    var t := s.txns[id];
    s.(list := Without(s.list, id), mask := s.mask - {t.tlabel},
       txns := s.txns[id := t.(phase := Closed, timer := Off)])
  }

  function CalledBack(s: State, id: nat): State
    requires id < |s.txns|
  {
    s.(txns := s.txns[id := s.txns[id].(callbacks := s.txns[id].callbacks + 1)])
  }

  /** A completion of a listed transaction: it is removed unless its timer has expired already,
      and called back in any case. */
  function Completed(s: State, id: nat): State
    requires id < |s.txns|
  {
    CalledBack(if s.txns[id].isSplit && !s.txns[id].timer.Armed? then s else Removed(s, id), id)
  }

  /** The first transaction on the list that a response is for. */
  function Answered(s: State, list: seq<nat>, source: nat, tlabel: nat): (r: Option<nat>)
    ensures r.Some? ==> r.value in list && r.value < |s.txns|
    ensures r.Some? ==> s.txns[r.value].nodeId == source && s.txns[r.value].tlabel == tlabel
    ensures r.None? ==> forall id | id in list && id < |s.txns| ::
      !(s.txns[id].nodeId == source && s.txns[id].tlabel == tlabel)
  {
    if list == [] then None
    else if list[0] < |s.txns| && s.txns[list[0]].nodeId == source && s.txns[list[0]].tlabel == tlabel then Some(list[0])
    else Answered(s, list[1..], source, tlabel)
  }

  predicate Enabled(s: State, op: Op) {
    match op
    case Send(_) => s.current < LABELS
    case Enqueue(id) => id < |s.txns| && s.txns[id].phase.Sending?
    case Pending(id) => id < |s.txns| && !s.txns[id].phase.Sending?
    case Close(id) => id < |s.txns| && !s.txns[id].phase.Sending?
    case Response(_, _) => true
    case Expire(id) => id < |s.txns| && s.txns[id].timer.Armed?
    case Timeout(id) => id < |s.txns| && s.txns[id].timer.Expired?
  }

  function Step(s: State, op: Op): State
    requires Enabled(s, op)
  {
    match op
    case Send(nodeId) =>
      var l := FreeLabel(s.mask, s.current, LABELS);
      if l.None? then s.(txns := s.txns + [Txn(nodeId, 0, Closed, false, Off, 1)])
      else s.(current := (l.value + 1) % LABELS, mask := s.mask + {l.value},
              txns := s.txns + [Txn(nodeId, l.value, Sending, false, Off, 0)])
    case Enqueue(id) => s.(list := s.list + [id], txns := s.txns[id := s.txns[id].(phase := Listed)])
    case Pending(id) =>
      if s.txns[id].phase.Listed? && !s.txns[id].isSplit then s.(txns := s.txns[id := s.txns[id].(isSplit := true, timer := Armed)]) else s
    case Close(id) => if id in s.list then Completed(s, id) else s
    case Response(source, tlabel) =>
      var r := Answered(s, s.list, source, tlabel);
      if r.None? then s else Completed(s, r.value)
    case Expire(id) => s.(txns := s.txns[id := s.txns[id].(timer := Expired)])
    case Timeout(id) =>
      if id in s.list then CalledBack(Removed(s, id), id)
      else s.(txns := s.txns[id := s.txns[id].(timer := Off)])
  }

  // ---- invariant -----------------------------------------------------------

  predicate TxnOk(s: State, id: nat)
    requires id < |s.txns|
  {
    var t := s.txns[id];
    && (t.phase.Listed? <==> id in s.list)
    && (!t.phase.Closed? ==> t.tlabel < LABELS && t.tlabel in s.mask)
    && (!t.timer.Off? <==> t.phase.Listed? && t.isSplit)
    && (t.phase.Sending? ==> !t.isSplit)
  }

  predicate Owns(s: State, id: nat, l: nat) { Live(s, id) && s.txns[id].tlabel == l }

  ghost predicate Inv(s: State) {
    && s.current < LABELS && Distinct(s.list) && (forall id | id in s.list :: id < |s.txns|)
    && (forall id | 0 <= id < |s.txns| :: TxnOk(s, id))
    && (forall i, j | 0 <= i < j < |s.txns| && Live(s, i) && Live(s, j) :: s.txns[i].tlabel != s.txns[j].tlabel)
    && (forall l | l in s.mask :: l < LABELS && exists id :: Owns(s, id, l))
  }

  lemma {:induction false} WithoutIs(list: seq<nat>, id: nat)
    requires Distinct(list)
    ensures Distinct(Without(list, id)) && forall x :: x in Without(list, id) <==> x in list && x != id
  {
    if list != [] {
      WithoutIs(list[1..], id);
      var w := Without(list[1..], id);
      if list[0] == id {
        assert forall x | x in list[1..] :: x != id;
      } else {
        assert list[0] !in w;
        assert forall i, j | 0 <= i < j < |[list[0]] + w| :: ([list[0]] + w)[i] != ([list[0]] + w)[j];
      }
    }
  }

  /** Removing a pending transaction frees its label and nothing else. */
  lemma RemovedInv(s: State, id: nat)
    requires Inv(s) && id in s.list
    ensures Inv(Removed(s, id)) && id !in Removed(s, id).list
  {
    WithoutIs(s.list, id);
    var t, r := s.txns[id], Removed(s, id);
    assert TxnOk(s, id);
    forall k | 0 <= k < |r.txns| ensures TxnOk(r, k) {
      assert TxnOk(s, k);
    }
    forall l | l in r.mask ensures l < LABELS && exists k :: Owns(r, k, l) {
      var k :| Owns(s, k, l);
      assert Owns(r, k, l);
    }
  }

  /** A change of one transaction that keeps its phase and label. */
  lemma TouchedInv(s: State, id: nat, t: Txn)
    requires Inv(s) && id < |s.txns| && t.phase == s.txns[id].phase && t.tlabel == s.txns[id].tlabel
    requires !t.timer.Off? <==> t.phase.Listed? && t.isSplit
    requires t.phase.Sending? ==> !t.isSplit
    ensures Inv(s.(txns := s.txns[id := t]))
  {
    var r := s.(txns := s.txns[id := t]);
    assert TxnOk(s, id);
    forall k | 0 <= k < |r.txns| ensures TxnOk(r, k) {
      assert TxnOk(s, k);
    }
    forall l | l in r.mask ensures l < LABELS && exists k :: Owns(r, k, l) {
      var k :| Owns(s, k, l);
      assert Owns(r, k, l);
    }
  }

  lemma SendInv(s: State, nodeId: nat)
    requires Inv(s)
    ensures Inv(Step(s, Send(nodeId)))
  {
    var r, n := Step(s, Send(nodeId)), |s.txns|;
    forall k | 0 <= k < |r.txns| ensures TxnOk(r, k) {
      if k < n {
        assert TxnOk(s, k);
      }
    }
    forall i, j | 0 <= i < j < |r.txns| && Live(r, i) && Live(r, j) ensures r.txns[i].tlabel != r.txns[j].tlabel {
      assert TxnOk(s, i) && Live(s, i);
      assert j < n ==> Live(s, j);
    }
    forall l | l in r.mask ensures l < LABELS && exists k :: Owns(r, k, l) {
      if l in s.mask {
        var k :| Owns(s, k, l);
        assert Owns(r, k, l);
      } else {
        assert Owns(r, n, l);
      }
    }
  }

  lemma EnqueueInv(s: State, id: nat)
    requires Inv(s) && Enabled(s, Enqueue(id))
    ensures Inv(Step(s, Enqueue(id)))
  {
    var r := Step(s, Enqueue(id));
    assert TxnOk(s, id);
    forall k | 0 <= k < |r.txns| ensures TxnOk(r, k) {
      assert TxnOk(s, k);
    }
    forall l | l in r.mask ensures l < LABELS && exists k :: Owns(r, k, l) {
      var k :| Owns(s, k, l);
      assert Owns(r, k, l);
    }
  }

  lemma CalledBackInv(s: State, id: nat)
    requires Inv(s) && id < |s.txns|
    ensures Inv(CalledBack(s, id))
  {
    assert TxnOk(s, id);
    TouchedInv(s, id, s.txns[id].(callbacks := s.txns[id].callbacks + 1));
  }

  lemma CompletedInv(s: State, id: nat)
    requires Inv(s) && id in s.list && id < |s.txns|
    ensures Inv(Completed(s, id))
  {
    RemovedInv(s, id);
    hide Inv, Removed, CalledBack;
    RemovedSize(s, id);
    CalledBackInv(if s.txns[id].isSplit && !s.txns[id].timer.Armed? then s else Removed(s, id), id);
  }

  lemma RemovedSize(s: State, id: nat)
    requires id < |s.txns|
    ensures |Removed(s, id).txns| == |s.txns|
  {
  }

  lemma OnList(s: State, id: nat)
    requires Inv(s) && id in s.list
    ensures id < |s.txns| && s.txns[id].phase.Listed? && Owns(s, id, s.txns[id].tlabel)
  {
    assert TxnOk(s, id);
  }

  /** Labels, list and mask stay consistent in every run. */
  lemma StepInv(s: State, op: Op)
    requires Inv(s) && Enabled(s, op)
    ensures Inv(Step(s, op))
  {
    match op
    case Send(nodeId) => SendInv(s, nodeId);
    case Enqueue(id) => EnqueueInv(s, id);
    case Pending(id) =>
      assert TxnOk(s, id);
      if s.txns[id].phase.Listed? && !s.txns[id].isSplit {
        TouchedInv(s, id, s.txns[id].(isSplit := true, timer := Armed));
      }
    case Close(id) =>
      if id in s.list {
        CompletedInv(s, id);
      }
    case Response(source, tlabel) =>
      var r := Answered(s, s.list, source, tlabel);
      if r.Some? {
        CompletedInv(s, r.value);
      }
    case Expire(id) =>
      assert TxnOk(s, id);
      TouchedInv(s, id, s.txns[id].(timer := Expired));
    case Timeout(id) =>
      assert TxnOk(s, id);
      RemovedInv(s, id);
      CalledBackInv(Removed(s, id), id);
  }

  lemma SameLabel(s: State, i: nat, j: nat, l: nat)
    requires Inv(s) && Owns(s, i, l) && Owns(s, j, l)
    ensures i == j
  {
  }

  /** Labels of pending transactions are distinct, so a response is for at most one of them. */
  lemma ResponseUnique(s: State, source: nat, tlabel: nat, id: nat)
    requires Inv(s) && id in s.list && s.txns[id].nodeId == source && s.txns[id].tlabel == tlabel
    ensures Answered(s, s.list, source, tlabel) == Some(id)
  {
    var r := Answered(s, s.list, source, tlabel);
    OnList(s, id);
    if r.Some? {
      OnList(s, r.value);
      SameLabel(s, id, r.value, tlabel);
    }
  }

  // ---- at most one callback ------------------------------------------------

  /** The transaction that a completion is for. */
  function Target(s: State, op: Op): Option<nat> {
    match op
    case Close(id) => if id in s.list then Some(id) else None
    case Response(source, tlabel) => Answered(s, s.list, source, tlabel)
    case _ => None
  }

  /** A completion of a transaction whose timer has expired and whose handler has not run. */
  predicate Overtakes(s: State, op: Op) {
    var t := Target(s, op); t.Some? && t.value < |s.txns| && s.txns[t.value].timer.Expired?
  }

  predicate OnceOk(t: Txn) { t.callbacks == if t.phase.Closed? then 1 else 0 }

  /** The owner of a transaction is called back exactly when it ends. */
  ghost predicate Once(s: State) { forall id | 0 <= id < |s.txns| :: OnceOk(s.txns[id]) }

  /** Callbacks beyond the one that the end of a transaction calls for. */
  function Surplus(s: State, id: nat): int {
    if id >= |s.txns| then 0 else s.txns[id].callbacks - if s.txns[id].phase.Closed? then 1 else 0
  }

  function Overtaken(s: State, op: Op, id: nat): nat {
    if Overtakes(s, op) && Target(s, op) == Some(id) then 1 else 0
  }

  lemma CompletedSurplus(s: State, target: nat, id: nat)
    requires Inv(s) && target in s.list && target < |s.txns|
    ensures Surplus(Completed(s, target), id) == Surplus(s, id) + (if id == target && s.txns[id].timer.Expired? then 1 else 0)
  {
    assert TxnOk(s, target);
  }

  /** Every step calls an owner back exactly when its transaction ends, and once more for a
      completion that overtakes the timer. */
  lemma StepSurplus(s: State, op: Op, id: nat)
    requires Inv(s) && Enabled(s, op)
    ensures Surplus(Step(s, op), id) == Surplus(s, id) + Overtaken(s, op, id)
  {
    match op
    case Close(k) =>
      if k in s.list {
        CompletedSurplus(s, k, id);
      }
    case Response(source, tlabel) =>
      var r := Answered(s, s.list, source, tlabel);
      if r.Some? {
        CompletedSurplus(s, r.value, id);
      }
    case Timeout(k) =>
      assert TxnOk(s, k);
    case _ =>
  }

  lemma OnceIsNoSurplus(s: State)
    ensures Once(s) <==> forall id: nat :: Surplus(s, id) == 0
  {
    if forall id: nat :: Surplus(s, id) == 0 {
      forall id | 0 <= id < |s.txns| ensures OnceOk(s.txns[id]) {
        assert Surplus(s, id) == 0;
      }
    }
    if Once(s) {
      forall id: nat ensures Surplus(s, id) == 0 {
        assert id < |s.txns| ==> OnceOk(s.txns[id]);
      }
    }
  }

  /** One callback per transaction is kept by a step exactly if it does not overtake a timer. */
  lemma StepOnce(s: State, op: Op)
    requires Inv(s) && Once(s) && Enabled(s, op)
    ensures Once(Step(s, op)) <==> !Overtakes(s, op)
  {
    hide Step, Once, Inv, Surplus;
    OnceIsNoSurplus(s);
    OnceIsNoSurplus(Step(s, op));
    forall id: nat ensures Surplus(Step(s, op), id) == Overtaken(s, op, id) {
      StepSurplus(s, op, id);
    }
    if Overtakes(s, op) {
      assert Surplus(Step(s, op), Target(s, op).value) == 1;
    }
  }

  ghost predicate LegalRun(s: State, ops: seq<Op>)
    decreases |ops|
  {
    ops != [] ==> Enabled(s, ops[0]) && LegalRun(Step(s, ops[0]), ops[1..])
  }

  ghost function Run(s: State, ops: seq<Op>): State
    requires LegalRun(s, ops)
    decreases |ops|
  {
    if ops == [] then s else Run(Step(s, ops[0]), ops[1..])
  }

  ghost predicate NeverOvertakes(s: State, ops: seq<Op>)
    requires LegalRun(s, ops)
    decreases |ops|
  {
    ops != [] ==> !Overtakes(s, ops[0]) && NeverOvertakes(Step(s, ops[0]), ops[1..])
  }

  const EMPTY: State := State({}, 0, [], [])

  lemma EmptyInv()
    ensures Inv(EMPTY) && Once(EMPTY)
  {
  }

  /** How often a completion overtakes the timer of transaction `id` in a run. */
  ghost function Overtakings(s: State, ops: seq<Op>, id: nat): nat
    requires LegalRun(s, ops)
    decreases |ops|
  {
    if ops == [] then 0 else Overtaken(s, ops[0], id) + Overtakings(Step(s, ops[0]), ops[1..], id)
  }

  /** The number of callbacks over any run, exactly. */
  lemma {:induction false} RunSurplus(s: State, ops: seq<Op>, id: nat)
    requires Inv(s) && LegalRun(s, ops)
    ensures Inv(Run(s, ops)) && Surplus(Run(s, ops), id) == Surplus(s, id) + Overtakings(s, ops, id)
    decreases |ops|
  {
    hide Inv, Step, Surplus, Overtaken;
    if ops != [] {
      StepInv(s, ops[0]);
      StepSurplus(s, ops[0], id);
      RunSurplus(Step(s, ops[0]), ops[1..], id);
    }
  }

  ghost predicate Spared(s: State, ops: seq<Op>, id: nat)
    requires LegalRun(s, ops)
  {
    Overtakings(s, ops, id) == 0
  }

  lemma SparedStep(s: State, ops: seq<Op>, id: nat)
    requires LegalRun(s, ops) && ops != []
    ensures Spared(s, ops, id) <==> Overtaken(s, ops[0], id) == 0 && Spared(Step(s, ops[0]), ops[1..], id)
  {
    hide Overtaken;
  }

  lemma {:induction false} NeverMeansSpared(s: State, ops: seq<Op>)
    requires LegalRun(s, ops)
    ensures NeverOvertakes(s, ops) ==> forall id: nat :: Spared(s, ops, id)
    ensures !NeverOvertakes(s, ops) ==> exists id: nat :: !Spared(s, ops, id)
    decreases |ops|
  {
    hide Step, Overtakings, Spared;
    if ops == [] {
      forall id: nat ensures Spared(s, ops, id) {
        SparedEmpty(s, id);
      }
    } else {
      var t := Step(s, ops[0]);
      NeverMeansSpared(t, ops[1..]);
      if Overtakes(s, ops[0]) {
        SparedStep(s, ops, Target(s, ops[0]).value);
      } else if NeverOvertakes(t, ops[1..]) {
        forall id: nat ensures Spared(s, ops, id) {
          SparedStep(s, ops, id);
        }
      } else {
        var id: nat :| !Spared(t, ops[1..], id);
        SparedStep(s, ops, id);
      }
    }
  }

  lemma SparedEmpty(s: State, id: nat)
    ensures Spared(s, [], id)
  {
  }

  /** Labels are consistent in every run, and every owner is called back once, exactly when its
      transaction ends, if and only if no completion overtakes an expired timer. */
  lemma RunOk(s: State, ops: seq<Op>)
    requires Inv(s) && LegalRun(s, ops)
    ensures Inv(Run(s, ops))
    ensures Once(s) ==> (Once(Run(s, ops)) <==> NeverOvertakes(s, ops))
  {
    hide Inv, Once, Step, Surplus, Run, NeverOvertakes, Overtakings;
    var t := Run(s, ops);
    RunSurplus(s, ops, 0);
    OnceIsNoSurplus(s);
    OnceIsNoSurplus(t);
    NeverMeansSpared(s, ops);
    if Once(s) && NeverOvertakes(s, ops) {
      forall id: nat ensures Surplus(t, id) == 0 {
        RunSurplus(s, ops, id);
        assert Spared(s, ops, id);
      }
    } else if Once(s) {
      var id: nat :| !Spared(s, ops, id);
      RunSurplus(s, ops, id);
      assert Surplus(t, id) != 0;
    }
  }

  /** Such a completion always leads to a second callback once the handler runs. */
  lemma OvertakingCallsTwice(s: State, op: Op)
    requires Inv(s) && Once(s) && Enabled(s, op) && Overtakes(s, op)
    ensures var id, t := Target(s, op).value, Step(s, op);
      && Enabled(t, Timeout(id)) && t.txns[id].callbacks == 1
      && Step(t, Timeout(id)).txns[id].callbacks == 2
  {
    var id := Target(s, op).value;
    assert TxnOk(s, id) && OnceOk(s.txns[id]);
  }

  lemma RunCons(s: State, op: Op, rest: seq<Op>)
    requires Enabled(s, op) && LegalRun(Step(s, op), rest)
    ensures LegalRun(s, [op] + rest) && Run(s, [op] + rest) == Run(Step(s, op), rest)
    ensures NeverOvertakes(s, [op] + rest) <==> !Overtakes(s, op) && NeverOvertakes(Step(s, op), rest)
  {
    hide Step, Overtakes;
    assert ([op] + rest)[1..] == rest;
  }

  /** It happens: a split transaction whose timer expires right before the response arrives. */
  lemma OvertakingHappens()
    ensures var ops := [Send(7), Enqueue(0), Pending(0), Expire(0), Response(7, 0), Timeout(0)];
      && LegalRun(EMPTY, ops) && !NeverOvertakes(EMPTY, ops)
      && |Run(EMPTY, ops).txns| == 1 && Run(EMPTY, ops).txns[0].callbacks == 2
  {
    var t := Txn(7, 0, Listed, true, Expired, 0);
    var s1, s2 := State({0}, 1, [], [t.(phase := Sending, isSplit := false, timer := Off)]),
      State({0}, 1, [0], [t.(isSplit := false, timer := Off)]);
    var s3, s4 := State({0}, 1, [0], [t.(timer := Armed)]), State({0}, 1, [0], [t]);
    assert FreeLabel({}, 0, LABELS) == Some(0);
    assert Step(EMPTY, Send(7)) == s1 && Step(s1, Enqueue(0)) == s2 && Step(s2, Pending(0)) == s3 && Step(s3, Expire(0)) == s4;
    var s5 := Step(s4, Response(7, 0));
    assert Answered(s4, s4.list, 7, 0) == Some(0) && Overtakes(s4, Response(7, 0));
    assert Enabled(s5, Timeout(0)) && Step(s5, Timeout(0)).txns[0].callbacks == 2 && |Step(s5, Timeout(0)).txns| == 1;
    hide Step, Overtakes, Answered;
    RunCons(s5, Timeout(0), []);
    RunCons(s4, Response(7, 0), [Timeout(0)]);
    RunCons(s3, Expire(0), [Response(7, 0)] + [Timeout(0)]);
    RunCons(s2, Pending(0), [Expire(0)] + ([Response(7, 0)] + [Timeout(0)]));
    RunCons(s1, Enqueue(0), [Pending(0)] + ([Expire(0)] + ([Response(7, 0)] + [Timeout(0)])));
    RunCons(EMPTY, Send(7), [Enqueue(0)] + ([Pending(0)] + ([Expire(0)] + ([Response(7, 0)] + [Timeout(0)]))));
    assert [Send(7), Enqueue(0), Pending(0), Expire(0), Response(7, 0), Timeout(0)]
      == [Send(7)] + ([Enqueue(0)] + ([Pending(0)] + ([Expire(0)] + ([Response(7, 0)] + [Timeout(0)]))));
  }

  lemma NextLabel(mask: set<nat>, current: nat, tried: nat)
    requires current < LABELS && tried < LABELS && (current + tried) % LABELS in mask
    ensures var l := (current + tried) % LABELS;
      && (l + 1) % LABELS == (current + (tried + 1)) % LABELS
      && FreeLabel(mask, l, LABELS - tried) == FreeLabel(mask, (l + 1) % LABELS, LABELS - (tried + 1))
      && ((l + 1) % LABELS == current <==> tried + 1 == LABELS)
      && (tried + 1 == LABELS ==> FreeLabel(mask, (l + 1) % LABELS, LABELS - (tried + 1)).None?)
  {
    LabelRound(current, tried);
  }

  lemma LabelRound(current: nat, tried: nat)
    requires current < LABELS && tried < LABELS
    ensures ((current + tried) % LABELS + 1) % LABELS == (current + (tried + 1)) % LABELS
    ensures (current + (tried + 1)) % LABELS == current <==> tried + 1 == LABELS
  {
    assert (current + tried) % LABELS == if current + tried < LABELS then current + tried else current + tried - LABELS;
  }

  lemma CurrentBound(s: State)
    requires Inv(s)
    ensures s.current < LABELS
  {
  }

  lemma FreeLabelHere(mask: set<nat>, l: nat, tries: nat)
    requires l < LABELS && l !in mask && tries > 0
    ensures FreeLabel(mask, l, tries) == Some(l)
  {
  }

  // ---- the operations ------------------------------------------------------

  class Card {
    var tlabelMask: set<nat>
    var currentTlabel: nat
    var list: seq<nat>
    var txns: seq<Txn>

    ghost function View(): State
      reads this
    {
      State(tlabelMask, currentTlabel, list, txns)
    }

    ghost predicate Valid()
      reads this
    {
      Inv(View())
    }

    constructor ()
      ensures Valid() && View() == EMPTY
    {
      tlabelMask, currentTlabel, list, txns := {}, 0, [], [];
      new;
      EmptyInv();
    }

    /** allocate_tlabel: fails only if all 64 labels are in use. */
    method AllocateTlabel() returns (tlabel: Option<nat>)
      requires currentTlabel < LABELS
      modifies this`tlabelMask, this`currentTlabel
      ensures tlabel == FreeLabel(old(tlabelMask), old(currentTlabel), LABELS)
      ensures tlabel.None? <==> forall l: nat | l < LABELS :: l in old(tlabelMask)
      ensures tlabel.None? ==> tlabelMask == old(tlabelMask) && currentTlabel == old(currentTlabel)
      ensures tlabel.Some? ==> tlabelMask == old(tlabelMask) + {tlabel.value} && currentTlabel == (tlabel.value + 1) % LABELS
    {
      hide FreeLabel;
      LabelExhausted(tlabelMask, currentTlabel);
      var l: nat := currentTlabel;
      ghost var tried := 0;
      while l in tlabelMask
        invariant tlabelMask == old(tlabelMask) && currentTlabel == old(currentTlabel)
        invariant l < LABELS && tried < LABELS && l == (currentTlabel + tried) % LABELS
        invariant FreeLabel(tlabelMask, currentTlabel, LABELS) == FreeLabel(tlabelMask, l, LABELS - tried)
        decreases LABELS - tried
      {
        NextLabel(tlabelMask, currentTlabel, tried);
        l := (l + 1) % LABELS;
        tried := tried + 1;
        if l == currentTlabel {
          return None;
        }
      }
      FreeLabelHere(tlabelMask, l, LABELS - tried);
      currentTlabel := (l + 1) % LABELS;
      tlabelMask := tlabelMask + {l};
      return Some(l);
    }

    /** The first part of __fw_send_request, under the lock. */
    method Send(nodeId: nat) returns (id: nat)
      requires Valid()
      modifies this
      ensures Valid() && View() == Step(old(View()), Op.Send(nodeId)) && id == |old(txns)|
    {
      hide Inv, FreeLabel;
      ghost var s := View();
      CurrentBound(s);
      SendInv(s, nodeId);
      id := |txns|;
      var l := AllocateTlabel();
      txns := txns + [if l.None? then Txn(nodeId, 0, Closed, false, Off, 1) else Txn(nodeId, l.value, Sending, false, Off, 0)];
    }

    /** The second part, under the lock again. */
    method Enqueue(id: nat)
      requires Valid() && Enabled(View(), Op.Enqueue(id))
      modifies this
      ensures Valid() && View() == Step(old(View()), Op.Enqueue(id))
    {
      EnqueueInv(View(), id);
      txns := txns[id := txns[id].(phase := Listed)];
      list := list + [id];
    }

    /** find_and_pop_transaction_entry for a given transaction, and the callback. */
    method CloseTransaction(id: nat) returns (found: bool)
      requires Valid() && Enabled(View(), Close(id))
      modifies this
      ensures Valid() && View() == Step(old(View()), Close(id)) && found == (id in old(list))
    {
      StepInv(View(), Close(id));
      found := id in list;
      if found {
        Complete(id);
      }
    }

    /** fw_core_handle_response: completes the transaction with this source and label, if any. */
    method HandleResponse(source: nat, tlabel: nat) returns (target: Option<nat>)
      requires Valid()
      modifies this
      ensures Valid() && View() == Step(old(View()), Response(source, tlabel))
      ensures target == Answered(old(View()), old(list), source, tlabel)
    {
      ghost var s := View();
      StepInv(s, Response(source, tlabel));
      target := None;
      var i := 0;
      while i < |list|
        invariant i <= |list| && View() == s && target.None?
        invariant Answered(s, s.list, source, tlabel) == Answered(s, s.list[i..], source, tlabel)
      {
        OnList(s, list[i]);
        if txns[list[i]].nodeId == source && txns[list[i]].tlabel == tlabel {
          target := Some(list[i]);
          break;
        }
        i := i + 1;
      }
      if target.Some? {
        Complete(target.value);
      }
    }

    /** try_cancel_split_timeout, removal if the timer did not fire, and the callback. */
    method Complete(id: nat)
      requires Valid() && id in list && id < |txns|
      modifies this
      ensures Valid() && View() == Completed(old(View()), id)
    {
      CompletedInv(View(), id);
      hide Inv;
      if !(txns[id].isSplit && !txns[id].timer.Armed?) {
        list := Without(list, id);
        tlabelMask := tlabelMask - {txns[id].tlabel};
        txns := txns[id := txns[id].(phase := Closed, timer := Off)];
      }
      txns := txns[id := txns[id].(callbacks := txns[id].callbacks + 1)];
    }

    /** start_split_transaction_timeout */
    method StartSplitTimeout(id: nat)
      requires Valid() && Enabled(View(), Pending(id))
      modifies this`txns
      ensures Valid() && View() == Step(old(View()), Pending(id))
    {
      StepInv(View(), Pending(id));
      hide Inv;
      if txns[id].phase.Listed? && !txns[id].isSplit {
        txns := txns[id := txns[id].(isSplit := true, timer := Armed)];
      }
    }

    /** split_transaction_timeout_callback */
    method SplitTimeout(id: nat)
      requires Valid() && Enabled(View(), Timeout(id))
      modifies this
      ensures Valid() && View() == Step(old(View()), Timeout(id))
    {
      StepInv(View(), Timeout(id));
      hide Inv;
      if id in list {
        list := Without(list, id);
        tlabelMask := tlabelMask - {txns[id].tlabel};
        txns := txns[id := txns[id].(phase := Closed, timer := Off)];
        txns := txns[id := txns[id].(callbacks := txns[id].callbacks + 1)];
      } else {
        txns := txns[id := txns[id].(timer := Off)];
      }
    }
  }
}
