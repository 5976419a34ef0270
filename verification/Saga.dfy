/** Money transfers as sagas (goakt-saga/actors/saga_orchestrator.go, account_entity.go): debit, credit, and a
    compensating credit when the second step fails. An Ask may fail before or after its message is delivered, and a
    message may still be delivered long after its Ask has failed. */
module Saga {
  import opened Wrappers
  import opened Ledgers

  // ---------- accounts ----------

  datatype DebitError = InsufficientFunds

  class AccountEntity {
    var balance: int

    constructor (balance: int)
      ensures this.balance == balance
    {
      this.balance := balance;
    }

    /** Refuses a debit that the balance does not cover. */
    method HandleDebit(amount: int) returns (r: Result<int, DebitError>)
      modifies this
      ensures r.Ok? <==> old(balance) >= amount
      ensures balance == if r.Ok? then old(balance) - amount else old(balance)
      ensures r.Ok? ==> r.value == balance
    {
      if balance < amount {
        return Err(InsufficientFunds);
      }
      balance := balance - amount;
      return Ok(balance);
    }

    method HandleCredit(amount: int) returns (r: int)
      modifies this
      ensures balance == old(balance) + amount && r == balance
    {
      balance := balance + amount;
      return balance;
    }
  }

  predicate CanDebit(balance: int, amount: int) {
    balance >= amount
  }

  // ---------- the protocol ----------

  /** One Ask: not sent, under way, lost before delivery, or delivered and answered. */
  datatype Mail = Unsent | UnderWay | Lost | Answered(yes: bool)

  datatype Phase = Begun | AskedDebit | Debited | AskedCredit | Compensating | Completed | Failed

  /** A transfer with its orchestrator's phase and its three messages. */
  datatype Transfer = Transfer(from: nat, to: nat, amount: int, phase: Phase, debit: Mail, credit: Mail, refund: Mail)

  datatype State = State(balances: seq<int>, transfers: seq<Transfer>)

  datatype Which = DebitMsg | CreditMsg | RefundMsg

  datatype Action =
    | Start(from: nat, to: nat, amount: int, saved: bool)
    | GiveUp(id: nat)
    | AskForDebit(id: nat)
    | AskForCredit(id: nat)
    | GiveUpCredit(id: nat)
    | Deliver(id: nat, which: Which)
    | Lose(id: nat, which: Which)
    | Proceed(id: nat)
    | AskFails(id: nat)

  function MailOf(t: Transfer, which: Which): Mail {
    match which
    case DebitMsg => t.debit
    case CreditMsg => t.credit
    case RefundMsg => t.refund
  }

  function WithMail(t: Transfer, which: Which, m: Mail): Transfer {
    match which
    case DebitMsg => t.(debit := m)
    case CreditMsg => t.(credit := m)
    case RefundMsg => t.(refund := m)
  }

  /** The Ask that the orchestrator is waiting for. */
  function Waiting(t: Transfer): Option<Which> {
    match t.phase
    case AskedDebit => Some(DebitMsg)
    case AskedCredit => Some(CreditMsg)
    case Compensating => Some(RefundMsg)
    case _ => None
  }

  /** The orchestrator goes on after an answer. */
  function AfterAnswer(t: Transfer): Transfer {
    match t.phase
    case AskedDebit => if t.debit == Answered(true) then t.(phase := Debited) else t.(phase := Failed)
    case AskedCredit => t.(phase := Completed)
    case Compensating => t.(phase := Failed)
    case _ => t
  }

  /** An Ask for the debit that fails ends the saga, one for the credit starts the compensation, and the result of the
      compensation is ignored. */
  function AfterFailure(t: Transfer): Transfer {
    match t.phase
    case AskedDebit => t.(phase := Failed)
    case AskedCredit => t.(phase := Compensating, refund := UnderWay)
    case Compensating => t.(phase := Failed)
    case _ => t
  }

  predicate IsAt(s: State, id: nat, phase: Phase) {
    id < |s.transfers| && s.transfers[id].phase == phase
  }

  predicate Enabled(s: State, a: Action) {
    match a
    case Start(from, to, amount, _) => from < |s.balances| && to < |s.balances| && amount > 0
    case GiveUp(id) => IsAt(s, id, Begun)
    case AskForDebit(id) => IsAt(s, id, Begun)
    case AskForCredit(id) => IsAt(s, id, Debited)
    case GiveUpCredit(id) => IsAt(s, id, Debited)
    case Deliver(id, which) =>
      && id < |s.transfers| && MailOf(s.transfers[id], which).UnderWay?
      && s.transfers[id].from < |s.balances| && s.transfers[id].to < |s.balances|
    case Lose(id, which) => id < |s.transfers| && MailOf(s.transfers[id], which).UnderWay?
    case Proceed(id) =>
      && id < |s.transfers| && Waiting(s.transfers[id]).Some?
      && MailOf(s.transfers[id], Waiting(s.transfers[id]).value).Answered?
    case AskFails(id) => id < |s.transfers| && Waiting(s.transfers[id]).Some?
  }

  /** What a delivered message does to which balance. */
  function Target(t: Transfer, which: Which): nat {
    if which.CreditMsg? then t.to else t.from
  }

  function Delta(t: Transfer, which: Which, balance: int): int {
    if !which.DebitMsg? then t.amount else if CanDebit(balance, t.amount) then -t.amount else 0
  }

  function Next(s: State, a: Action): State
    requires Enabled(s, a)
  {
    match a
    case Start(from, to, amount, saved) =>
      s.(transfers := s.transfers +
         [Transfer(from, to, amount, if saved then Begun else Failed, Unsent, Unsent, Unsent)])
    case Deliver(id, which) =>
      var t := s.transfers[id];
      var k := Target(t, which);
      var yes := !which.DebitMsg? || CanDebit(s.balances[k], t.amount);
      State(s.balances[k := s.balances[k] + Delta(t, which, s.balances[k])],
            s.transfers[id := WithMail(t, which, Answered(yes))])
    case _ => s.(transfers := s.transfers[a.id := LocalNext(s.transfers[a.id], a)])
  }

  /** The steps of an orchestrator and the loss of a message touch no account. */
  function LocalNext(t: Transfer, a: Action): Transfer
    requires !a.Start? && !a.Deliver?
  {
    match a
    case GiveUp(_) => t.(phase := Failed)
    case AskForDebit(_) => t.(phase := AskedDebit, debit := UnderWay)
    case AskForCredit(_) => t.(phase := AskedCredit, credit := UnderWay)
    case GiveUpCredit(_) => t.(phase := Compensating, refund := UnderWay)
    case Lose(_, which) => WithMail(t, which, Lost)
    case Proceed(_) => AfterAnswer(t)
    case AskFails(_) => AfterFailure(t)
  }

  // ---------- what every run keeps ----------

  function Paid(made: bool, amount: int): int {
    if made then amount else 0
  }

  /** What a transfer has done to account `k`, as far as its messages were delivered. */
  function Effect(t: Transfer, k: nat): int {
    Paid(t.credit.Answered? && t.to == k, t.amount) + Paid(t.refund.Answered? && t.from == k, t.amount)
    - Paid(t.debit == Answered(true) && t.from == k, t.amount)
  }

  function Net(transfers: seq<Transfer>, n: nat, k: nat): int
    requires n <= |transfers|
  {
    if n == 0 then 0 else Net(transfers, n - 1, k) + Effect(transfers[n - 1], k)
  }

  /** What a transfer has added to all accounts together. */
  function Flow(t: Transfer): int {
    Paid(t.credit.Answered?, t.amount) + Paid(t.refund.Answered?, t.amount) - Paid(t.debit == Answered(true), t.amount)
  }

  function TotalFlow(transfers: seq<Transfer>, n: nat): int
    requires n <= |transfers|
  {
    if n == 0 then 0 else TotalFlow(transfers, n - 1) + Flow(transfers[n - 1])
  }

  /** The phases and the messages of a transfer agree. */
  predicate MailOk(t: Transfer) {
    && (t.phase.Begun? ==> t.debit.Unsent?)
    && (t.phase.AskedDebit? ==> !t.debit.Unsent?)
    && ((t.phase.Begun? || t.phase.AskedDebit? || t.phase.Debited?) ==> t.credit.Unsent?)
    && (t.phase.AskedCredit? ==> !t.credit.Unsent?)
    && (!t.phase.Compensating? && !t.phase.Failed? ==> t.refund.Unsent?)
    && (t.phase.Compensating? ==> !t.refund.Unsent?)
    && (t.phase.Completed? ==> t.credit.Answered?)
    && (t.phase.Debited? || !t.credit.Unsent? || !t.refund.Unsent? ==> t.debit == Answered(true))
    && (t.phase.Failed? && !t.credit.Unsent? ==> !t.refund.Unsent?)
  }

  predicate TransferOk(s: State, id: nat)
    requires id < |s.transfers|
  {
    var t := s.transfers[id];
    t.from < |s.balances| && t.to < |s.balances| && t.amount > 0 && MailOk(t)
  }

  /** No balance is negative; every balance is the first one with each transfer's effect applied; and the total is the
      first one with what the transfers have added. */
  ghost predicate Inv(init: seq<int>, s: State) {
    && |s.balances| == |init|
    && (forall id {:trigger TransferOk(s, id)} :: 0 <= id < |s.transfers| ==> TransferOk(s, id))
    && (forall k :: 0 <= k < |init| ==> s.balances[k] >= 0)
    && (forall k :: 0 <= k < |init| ==> s.balances[k] == init[k] + Net(s.transfers, |s.transfers|, k))
    && Total(s.balances, |init|) == Total(init, |init|) + TotalFlow(s.transfers, |s.transfers|)
  }

  lemma {:induction false} NetUpdate(transfers: seq<Transfer>, n: nat, id: nat, t: Transfer, k: nat)
    requires n <= |transfers| && id < |transfers|
    ensures Net(transfers[id := t], n, k) ==
            Net(transfers, n, k) + (if id < n then Effect(t, k) - Effect(transfers[id], k) else 0)
    ensures TotalFlow(transfers[id := t], n) ==
            TotalFlow(transfers, n) + (if id < n then Flow(t) - Flow(transfers[id]) else 0)
    decreases n
  {
    if n > 0 {
      NetUpdate(transfers, n - 1, id, t, k);
    }
  }

  lemma {:induction false} NetPrefix(transfers: seq<Transfer>, t: Transfer, n: nat, k: nat)
    requires n <= |transfers|
    ensures Net(transfers + [t], n, k) == Net(transfers, n, k)
    ensures TotalFlow(transfers + [t], n) == TotalFlow(transfers, n)
    decreases n
  {
    if n > 0 {
      NetPrefix(transfers, t, n - 1, k);
    }
  }

  /** A step that changes one balance by what it changes in the transfer's account of it. */
  lemma MoveKeeps(init: seq<int>, s: State, u: State, id: nat, t: Transfer, k: nat, delta: int)
    requires Inv(init, s) && id < |s.transfers| && k < |s.balances| && s.balances[k] + delta >= 0
    requires u == State(s.balances[k := s.balances[k] + delta], s.transfers[id := t]) && TransferOk(u, id)
    requires Flow(t) == Flow(s.transfers[id]) + delta
    requires forall j: nat :: Effect(t, j) == Effect(s.transfers[id], j) + (if j == k then delta else 0)
    ensures Inv(init, u)
  {
    TotalUpdate(s.balances, |init|, k, s.balances[k] + delta);
    NetUpdate(s.transfers, |s.transfers|, id, t, k);
    forall j | 0 <= j < |init|
      ensures u.balances[j] == init[j] + Net(u.transfers, |u.transfers|, j)
    {
      NetUpdate(s.transfers, |s.transfers|, id, t, j);
    }
    forall j | 0 <= j < |u.transfers|
      ensures TransferOk(u, j)
    {
      assert j != id ==> TransferOk(s, j);
    }
  }

  lemma StartKeeps(init: seq<int>, s: State, a: Action)
    requires Inv(init, s) && a.Start? && Enabled(s, a)
    ensures Inv(init, Next(s, a))
  {
    var u, n := Next(s, a), |s.transfers|;
    NetPrefix(s.transfers, u.transfers[n], n, 0);
    forall j | 0 <= j < |init|
      ensures u.balances[j] == init[j] + Net(u.transfers, |u.transfers|, j)
    {
      NetPrefix(s.transfers, u.transfers[n], n, j);
    }
    forall j | 0 <= j < |u.transfers|
      ensures TransferOk(u, j)
    {
      assert j < n ==> TransferOk(s, j);
    }
  }

  /** A delivery changes the transfer's effect by what it changes in the balance. */
  lemma DeliveryEffect(t: Transfer, which: Which, balance: int, k: nat)
    requires MailOf(t, which).UnderWay?
    ensures var u := WithMail(t, which, Answered(!which.DebitMsg? || CanDebit(balance, t.amount)));
            && Effect(u, k) == Effect(t, k) + (if k == Target(t, which) then Delta(t, which, balance) else 0)
            && Flow(u) == Flow(t) + Delta(t, which, balance)
  {
  }

  lemma DeliverKeeps(init: seq<int>, s: State, id: nat, which: Which)
    requires Inv(init, s) && Enabled(s, Deliver(id, which))
    ensures Inv(init, Next(s, Deliver(id, which)))
  {
    var t, u := s.transfers[id], Next(s, Deliver(id, which));
    assert TransferOk(s, id);
    var k := Target(t, which);
    forall j: nat
      ensures Effect(u.transfers[id], j) == Effect(t, j) + (if j == k then Delta(t, which, s.balances[k]) else 0)
    {
      DeliveryEffect(t, which, s.balances[k], j);
    }
    DeliveryEffect(t, which, s.balances[k], 0);
    MoveKeeps(init, s, u, id, u.transfers[id], k, Delta(t, which, s.balances[k]));
  }

  /** Steps of the orchestrator, and lost messages, change no effect. */
  lemma LocalEffect(t: Transfer, a: Action, k: nat)
    requires MailOk(t) && !a.Start? && !a.Deliver? && Enabled(State([], [t]), Renumbered(a))
    ensures MailOk(LocalNext(t, a)) && Flow(LocalNext(t, a)) == Flow(t) && Effect(LocalNext(t, a), k) == Effect(t, k)
  {
  }

  /** The same step of the only transfer. */
  function Renumbered(a: Action): Action
    requires !a.Start?
  {
    a.(id := 0)
  }

  lemma LocalKeeps(init: seq<int>, s: State, a: Action)
    requires Inv(init, s) && Enabled(s, a) && !a.Start? && !a.Deliver?
    ensures Inv(init, Next(s, a))
  {
    var t := s.transfers[a.id];
    assert TransferOk(s, a.id);
    var u := Next(s, a);
    forall j: nat
      ensures Effect(u.transfers[a.id], j) == Effect(t, j)
    {
      LocalEffect(t, a, j);
    }
    LocalEffect(t, a, 0);
    assert s.balances[t.from := s.balances[t.from] + 0] == s.balances;
    MoveKeeps(init, s, u, a.id, u.transfers[a.id], t.from, 0);
  }

  /** Every step keeps the invariant. */
  lemma StepKeeps(init: seq<int>, s: State, a: Action)
    requires Inv(init, s) && Enabled(s, a)
    ensures Inv(init, Next(s, a))
  {
    if a.Start? {
      StartKeeps(init, s, a);
    } else if a.Deliver? {
      DeliverKeeps(init, s, a.id, a.which);
    } else {
      LocalKeeps(init, s, a);
    }
  }

  // ---------- runs ----------

  ghost predicate Run(init: seq<int>, actions: seq<Action>, states: seq<State>) {
    && |states| == |actions| + 1 && states[0] == State(init, [])
    && (forall k :: 0 <= k < |init| ==> init[k] >= 0)
    && forall i :: 0 <= i < |actions| ==> Enabled(states[i], actions[i]) && states[i + 1] == Next(states[i], actions[i])
  }

  /** In every run, under any interleaving of sagas and whatever happens to the messages, no balance is negative, every
      balance is explained by the delivered messages, and so is the total. */
  lemma {:induction false} EveryRunKeeps(init: seq<int>, actions: seq<Action>, states: seq<State>, n: nat)
    requires Run(init, actions, states) && n < |states|
    ensures Inv(init, states[n])
    decreases n
  {
    if n > 0 {
      EveryRunKeeps(init, actions, states, n - 1);
      StepKeeps(init, states[n - 1], actions[n - 1]);
    }
  }

  // ---------- what a run has done, told by its steps ----------

  predicate Concerns(a: Action, id: nat) {
    !a.Start? && a.id == id
  }

  /** The sum of the changes that the first `n` steps of saga `id` have made to account `k`. */
  function OwnChange(actions: seq<Action>, states: seq<State>, id: nat, n: nat, k: nat): int
    requires n <= |actions| < |states| && forall i :: 0 <= i < |states| ==> k < |states[i].balances|
  {
    if n == 0 then 0
    else OwnChange(actions, states, id, n - 1, k)
         + (if Concerns(actions[n - 1], id) then states[n].balances[k] - states[n - 1].balances[k] else 0)
  }

  /** What can happen to a saga that its failure hides. */
  datatype Event = DebitMade | CreditMade | RefundMade | DebitAskFailed | RefundAsked

  predicate Happens(e: Event, s: State, a: Action, id: nat) {
    && Concerns(a, id) && id < |s.transfers|
    && var t := s.transfers[id];
       match e
       case DebitMade => a == Deliver(id, DebitMsg) && t.from < |s.balances| && CanDebit(s.balances[t.from], t.amount)
       case CreditMade => a == Deliver(id, CreditMsg)
       case RefundMade => a == Deliver(id, RefundMsg)
       case DebitAskFailed => a.AskFails? && t.phase.AskedDebit?
       case RefundAsked => a.GiveUpCredit? || (a.AskFails? && t.phase.AskedCredit?)
  }

  /** The event has happened in one of the first `n` steps. */
  ghost predicate Ever(e: Event, actions: seq<Action>, states: seq<State>, id: nat, n: nat)
    requires n <= |actions| < |states|
  {
    exists i :: 0 <= i < n && Happens(e, states[i], actions[i], id)
  }

  lemma EverStep(e: Event, actions: seq<Action>, states: seq<State>, id: nat, n: nat)
    requires 0 < n <= |actions| < |states|
    ensures Ever(e, actions, states, id, n) <==>
            Ever(e, actions, states, id, n - 1) || Happens(e, states[n - 1], actions[n - 1], id)
  {
    if i :| 0 <= i < n && Happens(e, states[i], actions[i], id) {
      assert i < n - 1 || i == n - 1;
    }
  }

  /** What the state knows about each event. */
  predicate Known(e: Event, t: Transfer) {
    match e
    case DebitMade => t.debit == Answered(true)
    case CreditMade => t.credit.Answered?
    case RefundMade => t.refund.Answered?
    case RefundAsked => !t.refund.Unsent?
    case DebitAskFailed => t.phase.Failed? && t.refund.Unsent? && !t.debit.Unsent? && t.debit != Answered(false)
  }

  lemma KnownStep(e: Event, init: seq<int>, s: State, a: Action, id: nat)
    requires Inv(init, s) && Enabled(s, a) && id < |s.transfers| && !e.DebitAskFailed?
    ensures id < |Next(s, a).transfers|
    ensures Known(e, Next(s, a).transfers[id]) <==> Known(e, s.transfers[id]) || Happens(e, s, a, id)
  {
    assert TransferOk(s, id);
  }

  /** A failed debit Ask is known from then on, unless the debit turns out to be refused; and nothing else looks like
      it. */
  lemma FailedAskStep(init: seq<int>, s: State, a: Action, id: nat)
    requires Inv(init, s) && Enabled(s, a) && id < |s.transfers|
    ensures id < |Next(s, a).transfers|
    ensures var t, u := s.transfers[id], Next(s, a).transfers[id];
            && (Known(DebitAskFailed, u) ==> Known(DebitAskFailed, t) || Happens(DebitAskFailed, s, a, id))
            && ((t.phase.Failed? && t.refund.Unsent?) || Happens(DebitAskFailed, s, a, id) ==>
                  u.phase.Failed? && u.refund.Unsent?)
  {
    assert TransferOk(s, id);
  }

  lemma NewTransfer(s: State, a: Action, id: nat)
    requires Enabled(s, a) && |s.transfers| <= id < |Next(s, a).transfers|
    ensures a.Start? && forall e :: !Known(e, Next(s, a).transfers[id])
  {
  }

  lemma {:induction false} NotYet(e: Event, init: seq<int>, actions: seq<Action>, states: seq<State>, id: nat, n: nat)
    requires Run(init, actions, states) && n < |states| && id >= |states[n].transfers|
    ensures !Ever(e, actions, states, id, n)
    decreases n
  {
    if n > 0 {
      EverStep(e, actions, states, id, n);
      NotYet(e, init, actions, states, id, n - 1);
    }
  }

  /** The messages of a transfer tell what its run has done. */
  lemma {:induction false} EverKnown(e: Event, init: seq<int>, actions: seq<Action>, states: seq<State>, id: nat,
                                     n: nat)
    requires Run(init, actions, states) && n < |states| && id < |states[n].transfers| && !e.DebitAskFailed?
    ensures Ever(e, actions, states, id, n) <==> Known(e, states[n].transfers[id])
    decreases n
  {
    if n > 0 {
      var s, a := states[n - 1], actions[n - 1];
      EverStep(e, actions, states, id, n);
      if id < |s.transfers| {
        EverKnown(e, init, actions, states, id, n - 1);
        EveryRunKeeps(init, actions, states, n - 1);
        KnownStep(e, init, s, a, id);
      } else {
        NotYet(e, init, actions, states, id, n - 1);
        NewTransfer(s, a, id);
      }
    }
  }

  lemma {:induction false} FailedAskKnown(init: seq<int>, actions: seq<Action>, states: seq<State>, id: nat, n: nat)
    requires Run(init, actions, states) && n < |states| && id < |states[n].transfers|
    ensures Known(DebitAskFailed, states[n].transfers[id]) ==> Ever(DebitAskFailed, actions, states, id, n)
    ensures Ever(DebitAskFailed, actions, states, id, n) ==>
              states[n].transfers[id].phase.Failed? && states[n].transfers[id].refund.Unsent?
    decreases n
  {
    if n > 0 {
      var s, a := states[n - 1], actions[n - 1];
      EverStep(DebitAskFailed, actions, states, id, n);
      if id < |s.transfers| {
        FailedAskKnown(init, actions, states, id, n - 1);
        EveryRunKeeps(init, actions, states, n - 1);
        FailedAskStep(init, s, a, id);
      } else {
        NotYet(DebitAskFailed, init, actions, states, id, n - 1);
        NewTransfer(s, a, id);
      }
    }
  }

  lemma SameBalances(init: seq<int>, actions: seq<Action>, states: seq<State>)
    requires Run(init, actions, states)
    ensures forall i :: 0 <= i < |states| ==> |states[i].balances| == |init|
  {
    forall i | 0 <= i < |states|
      ensures |states[i].balances| == |init|
    {
      EveryRunKeeps(init, actions, states, i);
    }
  }

  /** One step changes a balance on behalf of the transfer that it concerns, by the change of that transfer's effect. */
  lemma ChangeStep(init: seq<int>, s: State, a: Action, id: nat, k: nat)
    requires Inv(init, s) && Enabled(s, a) && id < |s.transfers| && k < |s.balances|
    ensures var u := Next(s, a);
            && id < |u.transfers| && k < |u.balances|
            && Effect(u.transfers[id], k) - Effect(s.transfers[id], k) ==
               if Concerns(a, id) then u.balances[k] - s.balances[k] else 0
  {
    if Concerns(a, id) {
      assert TransferOk(s, id);
      if a.Deliver? {
        var t := s.transfers[id];
        DeliveryEffect(t, a.which, s.balances[Target(t, a.which)], k);
      } else {
        LocalEffect(s.transfers[id], a, k);
      }
    }
  }

  /** The changes made by a saga's own steps add up to the effect of its delivered messages. */
  lemma {:induction false} OwnChangeIs(init: seq<int>, actions: seq<Action>, states: seq<State>, id: nat, n: nat,
                                       k: nat)
    requires Run(init, actions, states) && n < |states| && k < |init|
    requires forall i :: 0 <= i < |states| ==> |states[i].balances| == |init|
    ensures OwnChange(actions, states, id, n, k) ==
            if id < |states[n].transfers| then Effect(states[n].transfers[id], k) else 0
    decreases n
  {
    if n > 0 {
      OwnChangeIs(init, actions, states, id, n - 1, k);
      EveryRunKeeps(init, actions, states, n - 1);
      if id < |states[n - 1].transfers| {
        ChangeStep(init, states[n - 1], actions[n - 1], id, k);
      }
    }
  }

  // ---------- what a completed saga has done ----------

  datatype Request = Request(from: nat, to: nat, amount: int)

  /** The transfers asked for in the first `n` steps, in order. */
  function Requests(actions: seq<Action>, n: nat): seq<Request>
    requires n <= |actions|
  {
    if n == 0 then []
    else match actions[n - 1]
         case Start(from, to, amount, _) => Requests(actions, n - 1) + [Request(from, to, amount)]
         case _ => Requests(actions, n - 1)
  }

  predicate AsRequested(t: Transfer, r: Request) {
    t.from == r.from && t.to == r.to && t.amount == r.amount
  }

  predicate Matching(transfers: seq<Transfer>, requests: seq<Request>) {
    && |transfers| == |requests|
    && forall i {:trigger transfers[i]} :: 0 <= i < |transfers| ==> AsRequested(transfers[i], requests[i])
  }

  lemma StepMatches(s: State, a: Action, requests: seq<Request>)
    requires Enabled(s, a) && Matching(s.transfers, requests)
    ensures a.Start? ==> Matching(Next(s, a).transfers, requests + [Request(a.from, a.to, a.amount)])
    ensures !a.Start? ==> Matching(Next(s, a).transfers, requests)
  {
  }

  /** In every run the transfers are those that were asked for, in order and as they were asked for. */
  lemma {:induction false} RequestsKept(init: seq<int>, actions: seq<Action>, states: seq<State>, n: nat)
    requires Run(init, actions, states) && n < |states|
    ensures Matching(states[n].transfers, Requests(actions, n))
    decreases n
  {
    if n > 0 {
      RequestsKept(init, actions, states, n - 1);
      StepMatches(states[n - 1], actions[n - 1], Requests(actions, n - 1));
    }
  }

  /** In every run the steps of a completed saga have taken the amount from the account of its request that pays and
      added it to the one that is paid, and have changed no other. */
  lemma CompletedMoves(init: seq<int>, actions: seq<Action>, states: seq<State>, id: nat, n: nat, k: nat)
    requires Run(init, actions, states) && n < |states| && k < |init|
    requires id < |states[n].transfers| && states[n].transfers[id].phase.Completed?
    ensures forall i :: 0 <= i < |states| ==> |states[i].balances| == |init|
    ensures id < |Requests(actions, n)|
    ensures var r := Requests(actions, n)[id];
            OwnChange(actions, states, id, n, k) ==
            (if k == r.to then r.amount else 0) - (if k == r.from then r.amount else 0)
  {
    SameBalances(init, actions, states);
    OwnChangeIs(init, actions, states, id, n, k);
    RequestsKept(init, actions, states, n);
    EveryRunKeeps(init, actions, states, n);
    assert TransferOk(states[n], id) && AsRequested(states[n].transfers[id], Requests(actions, n)[id]);
  }

  /** What a delivery does, told by the balances: a debit that is covered takes the amount from the account that pays,
      one that is not covered takes nothing, the credit goes to the other account, and the refund comes back. */
  lemma DeliveredMoves(s: State, id: nat, which: Which, k: nat)
    requires Enabled(s, Deliver(id, which)) && k < |s.balances|
    ensures var t, u := s.transfers[id], Next(s, Deliver(id, which));
            && |u.balances| == |s.balances|
            && u.balances[k] == s.balances[k] + match which
                                                case DebitMsg => if k == t.from && s.balances[k] >= t.amount
                                                                 then -t.amount else 0
                                                case CreditMsg => if k == t.to then t.amount else 0
                                                case RefundMsg => if k == t.from then t.amount else 0
  {
  }

  // ---------- when a failed saga leaves no trace ----------

  /** A debit or a credit whose Ask failed was not made, and once the saga has failed a refund that was asked for has
      been made. */
  ghost predicate Honest(actions: seq<Action>, states: seq<State>, id: nat, n: nat)
    requires n <= |actions| < |states| && id < |states[n].transfers|
  {
    && !(Ever(DebitAskFailed, actions, states, id, n) && Ever(DebitMade, actions, states, id, n))
    && !(Ever(RefundAsked, actions, states, id, n) && Ever(CreditMade, actions, states, id, n))
    && (states[n].transfers[id].phase.Failed? && Ever(RefundAsked, actions, states, id, n) ==>
          Ever(RefundMade, actions, states, id, n))
  }

  lemma AllKnown(init: seq<int>, actions: seq<Action>, states: seq<State>, id: nat, n: nat)
    requires Run(init, actions, states) && n < |states| && id < |states[n].transfers|
    ensures var t := states[n].transfers[id];
            && (Ever(DebitMade, actions, states, id, n) <==> t.debit == Answered(true))
            && (Ever(CreditMade, actions, states, id, n) <==> t.credit.Answered?)
            && (Ever(RefundMade, actions, states, id, n) <==> t.refund.Answered?)
            && (Ever(RefundAsked, actions, states, id, n) <==> !t.refund.Unsent?)
            && (Ever(DebitAskFailed, actions, states, id, n) && t.debit == Answered(true) <==>
                  t.phase.Failed? && t.refund.Unsent? && t.debit == Answered(true))
  {
    EverKnown(DebitMade, init, actions, states, id, n);
    EverKnown(CreditMade, init, actions, states, id, n);
    EverKnown(RefundMade, init, actions, states, id, n);
    EverKnown(RefundAsked, init, actions, states, id, n);
    FailedAskKnown(init, actions, states, id, n);
  }

  lemma NoEffectIff(t: Transfer)
    requires MailOk(t) && t.amount > 0 && t.from != t.to
    ensures (Effect(t, t.from) == 0 && Effect(t, t.to) == 0) <==>
            !t.credit.Answered? && (t.debit == Answered(true) <==> t.refund.Answered?)
  {
  }

  lemma HonestIffNoEffect(init: seq<int>, actions: seq<Action>, states: seq<State>, id: nat, n: nat)
    requires Run(init, actions, states) && n < |states| && id < |states[n].transfers|
    requires states[n].transfers[id].phase.Failed? && states[n].transfers[id].from != states[n].transfers[id].to
    ensures var t := states[n].transfers[id];
            Effect(t, t.from) == 0 && Effect(t, t.to) == 0 <==> Honest(actions, states, id, n)
  {
    EveryRunKeeps(init, actions, states, n);
    assert TransferOk(states[n], id);
    AllKnown(init, actions, states, id, n);
    NoEffectIff(states[n].transfers[id]);
  }

  /** The steps of saga `id` have changed none of the first `m` balances in sum. */
  ghost predicate NoTrace(actions: seq<Action>, states: seq<State>, id: nat, n: nat, m: nat)
    requires n <= |actions| < |states| && forall i :: 0 <= i < |states| ==> |states[i].balances| == m
  {
    forall k {:trigger OwnChange(actions, states, id, n, k)} :: 0 <= k < m ==> OwnChange(actions, states, id, n, k) == 0
  }

  lemma NoTraceIffNoEffect(init: seq<int>, actions: seq<Action>, states: seq<State>, id: nat, n: nat)
    requires Run(init, actions, states) && n < |states| && id < |states[n].transfers|
    requires forall i :: 0 <= i < |states| ==> |states[i].balances| == |init|
    ensures var t := states[n].transfers[id];
            NoTrace(actions, states, id, n, |init|) <==> Effect(t, t.from) == 0 && Effect(t, t.to) == 0
  {
    var t := states[n].transfers[id];
    EveryRunKeeps(init, actions, states, n);
    assert TransferOk(states[n], id);
    OwnChangeIs(init, actions, states, id, n, t.from);
    OwnChangeIs(init, actions, states, id, n, t.to);
    if Effect(t, t.from) == 0 && Effect(t, t.to) == 0 {
      forall k | 0 <= k < |init|
        ensures OwnChange(actions, states, id, n, k) == 0
      {
        OwnChangeIs(init, actions, states, id, n, k);
      }
    }
  }

  /** In every run, the steps of a failed saga between two accounts have changed no balance in sum exactly when no
      debit or credit was made whose Ask failed, and the refund was made if it was asked for. */
  lemma FailedLeavesNoTrace(init: seq<int>, actions: seq<Action>, states: seq<State>, id: nat, n: nat)
    requires Run(init, actions, states) && n < |states| && id < |states[n].transfers|
    requires states[n].transfers[id].phase.Failed? && states[n].transfers[id].from != states[n].transfers[id].to
    ensures forall i :: 0 <= i < |states| ==> |states[i].balances| == |init|
    ensures NoTrace(actions, states, id, n, |init|) <==> Honest(actions, states, id, n)
  {
    SameBalances(init, actions, states);
    NoTraceIffNoEffect(init, actions, states, id, n);
    HonestIffNoEffect(init, actions, states, id, n);
  }

  // ---------- conservation ----------

  /** Money that was debited and is still to be credited or given back. */
  function OnTheWay(t: Transfer): int {
    Paid(t.debit == Answered(true) && !t.credit.Answered? && !t.refund.Answered? && !t.phase.Failed?, t.amount)
  }

  function InTransit(transfers: seq<Transfer>, n: nat): int
    requires n <= |transfers|
  {
    if n == 0 then 0 else InTransit(transfers, n - 1) + OnTheWay(transfers[n - 1])
  }

  /** An honest transfer has added nothing but what it still has on the way. */
  lemma HonestFlow(init: seq<int>, actions: seq<Action>, states: seq<State>, id: nat, n: nat)
    requires Run(init, actions, states) && n < |states| && id < |states[n].transfers|
    requires Honest(actions, states, id, n)
    ensures Flow(states[n].transfers[id]) == -OnTheWay(states[n].transfers[id])
  {
    EveryRunKeeps(init, actions, states, n);
    assert TransferOk(states[n], id);
    AllKnown(init, actions, states, id, n);
  }

  lemma {:induction false} HonestTotal(init: seq<int>, actions: seq<Action>, states: seq<State>, n: nat, m: nat)
    requires Run(init, actions, states) && n < |states| && m <= |states[n].transfers|
    requires forall id :: 0 <= id < |states[n].transfers| ==> Honest(actions, states, id, n)
    ensures TotalFlow(states[n].transfers, m) == -InTransit(states[n].transfers, m)
    decreases m
  {
    if m > 0 {
      HonestTotal(init, actions, states, n, m - 1);
      HonestFlow(init, actions, states, m - 1, n);
    }
  }

  /** In every run in which failed Asks have no effect and refunds succeed, what is on the accounts and on the way is at
      all times what there was. */
  lemma HonestRunConserves(init: seq<int>, actions: seq<Action>, states: seq<State>, n: nat)
    requires Run(init, actions, states) && n < |states|
    requires forall id :: 0 <= id < |states[n].transfers| ==> Honest(actions, states, id, n)
    ensures |states[n].balances| == |init|
    ensures Total(states[n].balances, |init|) + InTransit(states[n].transfers, |states[n].transfers|) ==
            Total(init, |init|)
  {
    EveryRunKeeps(init, actions, states, n);
    HonestTotal(init, actions, states, n, |states[n].transfers|);
  }

  predicate Ended(t: Transfer) {
    t.phase.Completed? || t.phase.Failed?
  }

  lemma {:induction false} NothingInTransit(init: seq<int>, s: State, n: nat)
    requires Inv(init, s) && n <= |s.transfers| && forall i :: 0 <= i < n ==> Ended(s.transfers[i])
    ensures InTransit(s.transfers, n) == 0
    decreases n
  {
    if n > 0 {
      NothingInTransit(init, s, n - 1);
      assert TransferOk(s, n - 1);
    }
  }

  /** Once every saga of such a run has ended, the accounts hold what they held at first. */
  lemma EndedRunConserves(init: seq<int>, actions: seq<Action>, states: seq<State>, n: nat)
    requires Run(init, actions, states) && n < |states|
    requires forall id :: 0 <= id < |states[n].transfers| ==> Honest(actions, states, id, n)
    requires forall id :: 0 <= id < |states[n].transfers| ==> Ended(states[n].transfers[id])
    ensures |states[n].balances| == |init| && Total(states[n].balances, |init|) == Total(init, |init|)
  {
    EveryRunKeeps(init, actions, states, n);
    HonestRunConserves(init, actions, states, n);
    NothingInTransit(init, states[n], |states[n].transfers|);
  }

  // ---------- a run that creates money ----------

  predicate Leads(s: State, a: Action, t: State) {
    Enabled(s, a) && t == Next(s, a)
  }

  /** The transfer after `i` steps: debited, its credit Ask failed, refunded, failed, and only then credited. */
  function LateTransfer(amount: int, i: nat): Transfer {
    var t := Transfer(0, 1, amount, Begun, Unsent, Unsent, Unsent);
    if i <= 1 then t
    else if i == 2 then t.(phase := AskedDebit, debit := UnderWay)
    else if i == 3 then t.(phase := AskedDebit, debit := Answered(true))
    else if i == 4 then t.(phase := Debited, debit := Answered(true))
    else if i == 5 then t.(phase := AskedCredit, debit := Answered(true), credit := UnderWay)
    else if i == 6 then t.(phase := Compensating, debit := Answered(true), credit := UnderWay, refund := UnderWay)
    else if i == 7 then t.(phase := Compensating, debit := Answered(true), credit := UnderWay, refund := Answered(true))
    else if i == 8 then t.(phase := Failed, debit := Answered(true), credit := UnderWay, refund := Answered(true))
    else t.(phase := Failed, debit := Answered(true), credit := Answered(true), refund := Answered(true))
  }

  function LateState(balance: int, amount: int, i: nat): State {
    var source := if 3 <= i <= 6 then balance - amount else balance;
    State([source, if i <= 8 then 0 else amount], if i == 0 then [] else [LateTransfer(amount, i)])
  }

  const LATE_STEPS := 9

  function LateAction(amount: int, i: nat): Action {
    if i == 0 then Start(0, 1, amount, true)
    else if i == 1 then AskForDebit(0)
    else if i == 2 then Deliver(0, DebitMsg)
    else if i == 3 then Proceed(0)
    else if i == 4 then AskForCredit(0)
    else if i == 5 then AskFails(0)
    else if i == 6 then Deliver(0, RefundMsg)
    else if i == 7 then Proceed(0)
    else Deliver(0, CreditMsg)
  }

  lemma LateStep(balance: int, amount: int, i: nat)
    requires 0 < amount <= balance && i < LATE_STEPS
    ensures Leads(LateState(balance, amount, i), LateAction(amount, i), LateState(balance, amount, i + 1))
  {
    var s, t := LateState(balance, amount, i), LateState(balance, amount, i + 1);
    assert i > 0 ==> s.transfers[0 := t.transfers[0]] == t.transfers;
  }

  /** A credit that is delivered after its Ask has failed and the refund has been made: the saga has failed, and the
      accounts hold more than at first. */
  lemma LateCreditCreatesMoney(balance: int, amount: int) returns (actions: seq<Action>, states: seq<State>)
    requires 0 < amount <= balance
    ensures Run([balance, 0], actions, states) && |states[|actions|].transfers| == 1
    ensures states[|actions|].transfers[0].phase.Failed? && states[|actions|].balances == [balance, amount]
  {
    actions := seq(LATE_STEPS, i requires 0 <= i < LATE_STEPS => LateAction(amount, i));
    states := seq(LATE_STEPS + 1, i requires 0 <= i <= LATE_STEPS => LateState(balance, amount, i));
    forall i | 0 <= i < |actions|
      ensures Enabled(states[i], actions[i]) && states[i + 1] == Next(states[i], actions[i])
    {
      LateStep(balance, amount, i);
    }
  }
}
