/** Two-phase commit of money transfers (goakt-2pc/actors/coordinator.go, account_entity.go): any number of
    coordinators over shared accounts, with Asks that may fail before or after they are delivered. */
module TwoPhase {
  import opened Wrappers
  import opened Ledgers

  // ---------- accounts ----------

  type TransferId = nat

  datatype Prepared = Prepared(amount: int, isDebit: bool)

  datatype Account = Account(balance: int, prepared: map<TransferId, Prepared>)

  /** The vote on a transfer: a debit needs the balance to cover it; other prepared debits are not counted. */
  function VoteOf(a: Account, id: TransferId, amount: int, isDebit: bool): bool {
    id in a.prepared || !isDebit || a.balance >= amount
  }

  function AfterPrepare(a: Account, id: TransferId, amount: int, isDebit: bool): Account {
    if id in a.prepared || (isDebit && a.balance < amount) then a
    else a.(prepared := a.prepared[id := Prepared(amount, isDebit)])
  }

  /** Applies a prepared transfer and forgets it; anything else is left alone. */
  function AfterCommit(a: Account, id: TransferId): Account {
    if id !in a.prepared then a
    else
      var p := a.prepared[id];
      Account(if p.isDebit then a.balance - p.amount else a.balance + p.amount, a.prepared - {id})
  }

  function AfterAbort(a: Account, id: TransferId): Account {
    a.(prepared := a.prepared - {id})
  }

  class AccountEntity {
    var balance: int
    var prepared: map<TransferId, Prepared>

    function View(): Account
      reads this
    {
      Account(balance, prepared)
    }

    constructor (balance: int)
      ensures View() == Account(balance, map[])
    {
      this.balance, prepared := balance, map[];
    }

    method HandlePrepare(id: TransferId, amount: int, isDebit: bool) returns (yes: bool)
      modifies this
      ensures View() == AfterPrepare(old(View()), id, amount, isDebit)
      ensures yes <==> id in old(prepared) || !isDebit || old(balance) >= amount
      ensures yes ==> id in prepared
      ensures balance == old(balance)
    {
      if id in prepared {
        return true;
      }
      if isDebit {
        if balance < amount {
          return false;
        }
      }
      prepared := prepared[id := Prepared(amount, isDebit)];
      return true;
    }

    /** A second commit of the same transfer changes nothing. */
    method HandleCommit(id: TransferId)
      modifies this
      ensures View() == AfterCommit(old(View()), id)
      ensures id !in prepared && AfterCommit(View(), id) == View()
    {
      if id !in prepared {
        return;
      }
      var p := prepared[id];
      if p.isDebit {
        balance := balance - p.amount;
      } else {
        balance := balance + p.amount;
      }
      prepared := prepared - {id};
    }

    method HandleAbort(id: TransferId)
      modifies this
      ensures View() == AfterAbort(old(View()), id) && balance == old(balance) && id !in prepared
    {
      if id in prepared {
        prepared := prepared - {id};
      }
    }
  }

  // ---------- what an account has promised ----------

  /** What a prepared debit will take from the balance. */
  function DebitOf(a: Account, id: TransferId): int {
    if id in a.prepared && a.prepared[id].isDebit then a.prepared[id].amount else 0
  }

  /** The sum of the prepared debits with an id below `n`. */
  function Held(a: Account, n: nat): int {
    if n == 0 then 0 else Held(a, n - 1) + DebitOf(a, n - 1)
  }

  /** `ids` lists the prepared debits of an account, each once and in any order; all ids are below `n`. */
  ghost predicate Lists(a: Account, ids: seq<TransferId>, n: nat) {
    && (forall i, j :: 0 <= i < j < |ids| ==> ids[i] != ids[j])
    && (forall id :: id in ids <==> id < n && id in a.prepared && a.prepared[id].isDebit)
  }

  /** The account after committing the listed transfers one after the other. */
  function CommitAll(a: Account, ids: seq<TransferId>): Account {
    if ids == [] then a else AfterCommit(CommitAll(a, ids[..|ids| - 1]), ids[|ids| - 1])
  }

  function ListHeld(a: Account, ids: seq<TransferId>): int {
    if ids == [] then 0 else ListHeld(a, ids[..|ids| - 1]) + DebitOf(a, ids[|ids| - 1])
  }

  lemma {:induction false} CommitAllIs(a: Account, ids: seq<TransferId>)
    requires forall i, j :: 0 <= i < j < |ids| ==> ids[i] != ids[j]
    requires forall i :: 0 <= i < |ids| ==> ids[i] in a.prepared && a.prepared[ids[i]].isDebit
    ensures CommitAll(a, ids).balance == a.balance - ListHeld(a, ids)
    ensures forall id :: id in a.prepared && id !in ids ==>
              id in CommitAll(a, ids).prepared && CommitAll(a, ids).prepared[id] == a.prepared[id]
    decreases |ids|
  {
    if ids != [] {
      CommitAllIs(a, ids[..|ids| - 1]);
    }
  }

  lemma {:induction false} ListHeldWithout(a: Account, ids: seq<TransferId>, k: nat)
    requires k < |ids|
    ensures ListHeld(a, ids) == ListHeld(a, ids[..k] + ids[k + 1..]) + DebitOf(a, ids[k])
    decreases |ids|
  {
    var n := |ids| - 1;
    var less := ids[..k] + ids[k + 1..];
    if k == n {
      assert less == ids[..n];
    } else {
      ListHeldWithout(a, ids[..n], k);
      assert less[..|less| - 1] == ids[..n][..k] + ids[..n][k + 1..];
      assert less[|less| - 1] == ids[n];
    }
  }

  lemma ListsWithout(a: Account, ids: seq<TransferId>, n: nat, k: nat)
    requires 0 < n && Lists(a, ids, n) && k < |ids| && ids[k] == n - 1
    ensures Lists(a, ids[..k] + ids[k + 1..], n - 1)
  {
    var less := ids[..k] + ids[k + 1..];
    forall id
      ensures id in less <==> id < n - 1 && id in a.prepared && a.prepared[id].isDebit
    {
      if id in less {
        var i :| 0 <= i < |less| && less[i] == id;
        var j := if i < k then i else i + 1;
        assert id == ids[j] && j != k;
        assert id in ids && ids[j] != ids[k];
      }
      if id < n - 1 && id in a.prepared && a.prepared[id].isDebit {
        assert id in ids;
        var i :| 0 <= i < |ids| && ids[i] == id;
        assert id == less[if i < k then i else i - 1];
      }
    }
  }

  lemma HasElement(ids: seq<TransferId>)
    requires ids != []
    ensures exists id :: id in ids
  {
    assert ids[0] in ids;
  }

  lemma {:induction false} ListHeldIsHeld(a: Account, ids: seq<TransferId>, n: nat)
    requires Lists(a, ids, n)
    ensures ListHeld(a, ids) == Held(a, n)
    decreases n
  {
    if n == 0 {
      if ids != [] {
        HasElement(ids);
        assert false;
      }
    } else if n - 1 in ids {
      var k :| 0 <= k < |ids| && ids[k] == n - 1;
      ListHeldWithout(a, ids, k);
      ListsWithout(a, ids, n, k);
      ListHeldIsHeld(a, ids[..k] + ids[k + 1..], n - 1);
    } else {
      ListHeldIsHeld(a, ids, n - 1);
    }
  }

  /** Committing all prepared debits of an account, however many and in whatever order, leaves it overdrawn exactly
      when its balance does not cover their sum. Each of them may have been covered when it was prepared. */
  lemma CommitsOverdraw(a: Account, ids: seq<TransferId>, n: nat)
    requires Lists(a, ids, n)
    ensures CommitAll(a, ids).balance == a.balance - Held(a, n)
    ensures CommitAll(a, ids).balance < 0 <==> a.balance < Held(a, n)
  {
    forall i | 0 <= i < |ids|
      ensures ids[i] in a.prepared && a.prepared[ids[i]].isDebit
    {
      assert ids[i] in ids;
    }
    CommitAllIs(a, ids);
    ListHeldIsHeld(a, ids, n);
  }

  // ---------- the protocol ----------

  /** One Ask: not sent, under way, lost before delivery, or delivered and answered. */
  datatype Mail = Unsent | UnderWay | Lost | Answered(yes: bool)

  datatype Phase = Begun | AskedFrom | AskedTo | CommitFrom | CommitTo | Completed | Failed

  /** A transfer with its coordinator's phase, its four messages, and how often either account applied it. */
  datatype Transfer = Transfer(from: nat, to: nat, amount: int, phase: Phase,
                               prepFrom: Mail, prepTo: Mail, commFrom: Mail, commTo: Mail,
                               debited: nat, credited: nat) {
    predicate Decided() {
      phase.CommitFrom? || phase.CommitTo? || phase.Completed?
    }
  }

  datatype State = State(accounts: seq<Account>, transfers: seq<Transfer>)

  datatype Which = PrepFrom | PrepTo | CommFrom | CommTo

  datatype Action =
    | Start(from: nat, to: nat, amount: int, saved: bool)
    | GiveUp(id: TransferId)
    | AskSource(id: TransferId)
    | Deliver(id: TransferId, which: Which)
    | Lose(id: TransferId, which: Which)
    | Proceed(id: TransferId)
    | AskFails(id: TransferId)

  function MailOf(t: Transfer, which: Which): Mail {
    match which
    case PrepFrom => t.prepFrom
    case PrepTo => t.prepTo
    case CommFrom => t.commFrom
    case CommTo => t.commTo
  }

  function WithMail(t: Transfer, which: Which, m: Mail): Transfer {
    match which
    case PrepFrom => t.(prepFrom := m)
    case PrepTo => t.(prepTo := m)
    case CommFrom => t.(commFrom := m)
    case CommTo => t.(commTo := m)
  }

  /** The coordinator goes on after an answer; a commit is answered by the account, whatever it did. */
  function AfterAnswer(t: Transfer): Transfer {
    match t.phase
    case AskedFrom => if t.prepFrom == Answered(true) then t.(phase := AskedTo, prepTo := UnderWay)
      else t.(phase := Failed)
    case AskedTo => if t.prepTo == Answered(true) then t.(phase := CommitFrom, commFrom := UnderWay)
      else t.(phase := Failed)
    case CommitFrom => t.(phase := CommitTo, commTo := UnderWay)
    case CommitTo => t.(phase := Completed)
    case _ => t
  }

  /** An Ask that fails aborts in the first phase; in the second the coordinator only logs it and goes on. */
  function AfterFailure(t: Transfer): Transfer {
    match t.phase
    case AskedFrom => t.(phase := Failed)
    case AskedTo => t.(phase := Failed)
    case CommitFrom => t.(phase := CommitTo, commTo := UnderWay)
    case CommitTo => t.(phase := Completed)
    case _ => t
  }

  /** The Ask that the coordinator is waiting for. */
  function Pending(t: Transfer): Option<Which> {
    match t.phase
    case AskedFrom => Some(PrepFrom)
    case AskedTo => Some(PrepTo)
    case CommitFrom => Some(CommFrom)
    case CommitTo => Some(CommTo)
    case _ => None
  }

  function Target(t: Transfer, which: Which): nat {
    if which.PrepFrom? || which.CommFrom? then t.from else t.to
  }

  predicate Enabled(s: State, a: Action) {
    match a
    case Start(from, to, amount, _) => from < |s.accounts| && to < |s.accounts| && from != to && amount > 0
    case GiveUp(id) => id < |s.transfers| && s.transfers[id].phase.Begun?
    case AskSource(id) => id < |s.transfers| && s.transfers[id].phase.Begun?
    case Deliver(id, which) => id < |s.transfers| && MailOf(s.transfers[id], which).UnderWay?
                               && Target(s.transfers[id], which) < |s.accounts|
    case Lose(id, which) => id < |s.transfers| && MailOf(s.transfers[id], which).UnderWay?
    case Proceed(id) => id < |s.transfers| && Pending(s.transfers[id]).Some?
                        && MailOf(s.transfers[id], Pending(s.transfers[id]).value).Answered?
    case AskFails(id) => id < |s.transfers| && Pending(s.transfers[id]).Some?
  }

  /** What the account does with a message, and what it answers. */
  function Handled(a: Account, id: TransferId, t: Transfer, which: Which): (Account, bool) {
    match which
    case PrepFrom => (AfterPrepare(a, id, t.amount, true), VoteOf(a, id, t.amount, true))
    case PrepTo => (AfterPrepare(a, id, t.amount, false), VoteOf(a, id, t.amount, false))
    case _ => (AfterCommit(a, id), true)
  }

  /** Counts an application of the transfer at the account. */
  function Counted(a: Account, id: TransferId, t: Transfer, which: Which): Transfer {
    if which.CommFrom? && id in a.prepared then t.(debited := t.debited + 1)
    else if which.CommTo? && id in a.prepared then t.(credited := t.credited + 1)
    else t
  }

  function Next(s: State, a: Action): State
    requires Enabled(s, a)
  {
    match a
    case Start(from, to, amount, saved) =>
      s.(transfers := s.transfers +
         [Transfer(from, to, amount, if saved then Begun else Failed, Unsent, Unsent, Unsent, Unsent, 0, 0)])
    case GiveUp(id) => s.(transfers := s.transfers[id := s.transfers[id].(phase := Failed)])
    case AskSource(id) => s.(transfers := s.transfers[id := s.transfers[id].(phase := AskedFrom, prepFrom := UnderWay)])
    case Deliver(id, which) =>
      var t := s.transfers[id];
      var k := Target(t, which);
      var (after, yes) := Handled(s.accounts[k], id, t, which);
      State(s.accounts[k := after],
            s.transfers[id := Counted(s.accounts[k], id, WithMail(t, which, Answered(yes)), which)])
    case Lose(id, which) => s.(transfers := s.transfers[id := WithMail(s.transfers[id], which, Lost)])
    case Proceed(id) => s.(transfers := s.transfers[id := AfterAnswer(s.transfers[id])])
    case AskFails(id) => s.(transfers := s.transfers[id := AfterFailure(s.transfers[id])])
  }

  // ---------- what every run keeps ----------

  function Once(m: Mail): nat {
    if m.Answered? then 1 else 0
  }

  /** The phases and the messages of one transfer agree. */
  predicate MailOk(t: Transfer) {
    && (t.phase.Begun? ==> t.prepFrom.Unsent?)
    && (t.phase.AskedFrom? ==> !t.prepFrom.Unsent?)
    && ((t.phase.Begun? || t.phase.AskedFrom?) ==> t.prepTo.Unsent?)
    && (t.phase.AskedTo? ==> t.prepFrom == Answered(true) && !t.prepTo.Unsent?)
    && (t.Decided() ==> t.prepFrom == Answered(true) && t.prepTo == Answered(true) && !t.commFrom.Unsent?)
    && (!t.Decided() ==> t.commFrom.Unsent?)
    && (t.commTo.Unsent? <==> !(t.phase.CommitTo? || t.phase.Completed?))
    && t.debited == Once(t.commFrom) && t.credited == Once(t.commTo)
  }

  predicate TransferOk(accounts: seq<Account>, transfers: seq<Transfer>, id: TransferId)
    requires id < |transfers|
  {
    var t := transfers[id];
    && t.from < |accounts| && t.to < |accounts| && t.from != t.to && t.amount > 0
    && MailOk(t)
    && (t.prepFrom == Answered(true) && !t.commFrom.Answered? ==> id in accounts[t.from].prepared)
    && (t.prepTo == Answered(true) && !t.commTo.Answered? ==> id in accounts[t.to].prepared)
    && (id in accounts[t.from].prepared ==>
        accounts[t.from].prepared[id] == Prepared(t.amount, true) && t.prepFrom.Answered? && !t.commFrom.Answered?)
    && (id in accounts[t.to].prepared ==>
        accounts[t.to].prepared[id] == Prepared(t.amount, false) && t.prepTo.Answered? && !t.commTo.Answered?)
  }

  /** What a transfer has done to account `k`. */
  function Effect(t: Transfer, k: nat): int {
    (if t.to == k then t.amount * t.credited else 0) - (if t.from == k then t.amount * t.debited else 0)
  }

  /** What the first `n` transfers have done to it. */
  function Net(transfers: seq<Transfer>, n: nat, k: nat): int
    requires n <= |transfers|
  {
    if n == 0 then 0 else Net(transfers, n - 1, k) + Effect(transfers[n - 1], k)
  }

  ghost predicate TransfersOk(s: State) {
    forall id {:trigger TransferOk(s.accounts, s.transfers, id)} :: 0 <= id < |s.transfers| ==>
      TransferOk(s.accounts, s.transfers, id)
  }

  /** Only transfers that exist are prepared, and only by their own two accounts. */
  ghost predicate NoStrays(s: State) {
    forall k: nat, id: TransferId {:trigger OwnEntry(s, k, id)} :: k < |s.accounts| ==> OwnEntry(s, k, id)
  }

  predicate OwnEntry(s: State, k: nat, id: TransferId)
    requires k < |s.accounts|
  {
    id in s.accounts[k].prepared ==>
      id < |s.transfers| && (k == s.transfers[id].from || k == s.transfers[id].to)
  }

  /** Every balance is the first one with each transfer's effect applied. */
  ghost predicate Balanced(init: seq<int>, s: State) {
    |s.accounts| == |init| && forall k :: 0 <= k < |init| ==>
      s.accounts[k].balance == init[k] + Net(s.transfers, |s.transfers|, k)
  }

  ghost predicate Inv(init: seq<int>, s: State) {
    TransfersOk(s) && NoStrays(s) && Balanced(init, s)
  }

  predicate SameEffect(t: Transfer, u: Transfer) {
    t.from == u.from && t.to == u.to && t.amount == u.amount && t.debited == u.debited && t.credited == u.credited
  }

  lemma {:induction false} NetUpdate(transfers: seq<Transfer>, n: nat, id: nat, t: Transfer, k: nat)
    requires n <= |transfers| && id < |transfers|
    ensures Net(transfers[id := t], n, k) ==
            Net(transfers, n, k) + (if id < n then Effect(t, k) - Effect(transfers[id], k) else 0)
    decreases n
  {
    if n > 0 {
      NetUpdate(transfers, n - 1, id, t, k);
    }
  }

  lemma {:induction false} NetPrefix(transfers: seq<Transfer>, t: Transfer, n: nat, k: nat)
    requires n <= |transfers|
    ensures Net(transfers + [t], n, k) == Net(transfers, n, k)
    decreases n
  {
    if n > 0 {
      NetPrefix(transfers, t, n - 1, k);
    }
  }

  /** A step of one coordinator that touches no account. */
  lemma LocalKeeps(init: seq<int>, s: State, id: TransferId, t: Transfer)
    requires Inv(init, s) && id < |s.transfers| && SameEffect(s.transfers[id], t)
    requires TransferOk(s.accounts, s.transfers[id := t], id)
    ensures Inv(init, s.(transfers := s.transfers[id := t]))
  {
    var u := s.(transfers := s.transfers[id := t]);
    forall j | 0 <= j < |u.transfers|
      ensures TransferOk(u.accounts, u.transfers, j)
    {
      assert TransferOk(s.accounts, s.transfers, j);
    }
    forall k: nat, j: TransferId | k < |u.accounts|
      ensures OwnEntry(u, k, j)
    {
      assert OwnEntry(s, k, j);
    }
    forall k | 0 <= k < |init|
      ensures u.accounts[k].balance == init[k] + Net(u.transfers, |u.transfers|, k)
    {
      NetUpdate(s.transfers, |s.transfers|, id, t, k);
    }
  }

  lemma StartKeeps(init: seq<int>, s: State, a: Action)
    requires Inv(init, s) && a.Start? && Enabled(s, a)
    ensures Inv(init, Next(s, a))
  {
    var u, n := Next(s, a), |s.transfers|;
    forall j | 0 <= j < |u.transfers|
      ensures TransferOk(u.accounts, u.transfers, j)
    {
      if j < n {
        assert TransferOk(s.accounts, s.transfers, j);
      } else {
        assert OwnEntry(s, a.from, n) && OwnEntry(s, a.to, n);
      }
    }
    forall k: nat, j: TransferId | k < |u.accounts|
      ensures OwnEntry(u, k, j)
    {
      assert OwnEntry(s, k, j);
    }
    forall k | 0 <= k < |init|
      ensures u.accounts[k].balance == init[k] + Net(u.transfers, |u.transfers|, k)
    {
      NetPrefix(s.transfers, u.transfers[n], n, k);
    }
  }

  /** What a delivery leaves: the account has handled it, and the transfer remembers the answer. */
  lemma DeliverLocal(init: seq<int>, s: State, id: TransferId, which: Which)
    requires Inv(init, s) && Enabled(s, Deliver(id, which))
    ensures var u := Next(s, Deliver(id, which));
            TransferOk(u.accounts, u.transfers, id)
  {
    assert TransferOk(s.accounts, s.transfers, id);
  }

  /** The account's balance moves by exactly what the transfer's effect on it moves. */
  lemma DeliverBalance(init: seq<int>, s: State, id: TransferId, which: Which, k: nat)
    requires Inv(init, s) && Enabled(s, Deliver(id, which)) && k < |s.accounts|
    ensures var u := Next(s, Deliver(id, which));
            u.accounts[k].balance - s.accounts[k].balance == Effect(u.transfers[id], k) - Effect(s.transfers[id], k)
  {
    assert TransferOk(s.accounts, s.transfers, id);
    var t, u := s.transfers[id], Next(s, Deliver(id, which)).transfers[id];
    assert t.amount * (t.debited + 1) == t.amount * t.debited + t.amount;
    assert t.amount * (t.credited + 1) == t.amount * t.credited + t.amount;
  }

  /** Only the entry of the delivered transfer can change. */
  lemma DeliverFrame(s: State, id: TransferId, which: Which, k: nat, j: TransferId)
    requires Enabled(s, Deliver(id, which)) && k < |s.accounts| && j != id
    ensures var u := Next(s, Deliver(id, which));
            && (j in u.accounts[k].prepared <==> j in s.accounts[k].prepared)
            && (j in s.accounts[k].prepared ==> u.accounts[k].prepared[j] == s.accounts[k].prepared[j])
  {
  }

  lemma DeliverKeeps(init: seq<int>, s: State, id: TransferId, which: Which)
    requires Inv(init, s) && Enabled(s, Deliver(id, which))
    ensures Inv(init, Next(s, Deliver(id, which)))
  {
    var u := Next(s, Deliver(id, which));
    DeliverLocal(init, s, id, which);
    forall j | 0 <= j < |u.transfers|
      ensures TransferOk(u.accounts, u.transfers, j)
    {
      if j != id {
        assert TransferOk(s.accounts, s.transfers, j);
        DeliverFrame(s, id, which, s.transfers[j].from, j);
        DeliverFrame(s, id, which, s.transfers[j].to, j);
      }
    }
    forall k: nat, j: TransferId | k < |u.accounts|
      ensures OwnEntry(u, k, j)
    {
      assert OwnEntry(s, k, j);
      if j != id {
        DeliverFrame(s, id, which, k, j);
      }
    }
    forall k | 0 <= k < |init|
      ensures u.accounts[k].balance == init[k] + Net(u.transfers, |u.transfers|, k)
    {
      NetUpdate(s.transfers, |s.transfers|, id, u.transfers[id], k);
      DeliverBalance(init, s, id, which, k);
    }
  }

  lemma CoordinatorKeeps(init: seq<int>, s: State, a: Action)
    requires Inv(init, s) && Enabled(s, a) && (a.GiveUp? || a.AskSource? || a.Proceed? || a.AskFails?)
    ensures Inv(init, Next(s, a))
  {
    assert TransferOk(s.accounts, s.transfers, a.id);
    LocalKeeps(init, s, a.id, Next(s, a).transfers[a.id]);
  }

  lemma LoseKeeps(init: seq<int>, s: State, id: TransferId, which: Which)
    requires Inv(init, s) && Enabled(s, Lose(id, which))
    ensures Inv(init, Next(s, Lose(id, which)))
  {
    assert TransferOk(s.accounts, s.transfers, id);
    LocalKeeps(init, s, id, WithMail(s.transfers[id], which, Lost));
  }

  /** Every step keeps the invariant. */
  lemma StepKeeps(init: seq<int>, s: State, a: Action)
    requires Inv(init, s) && Enabled(s, a)
    ensures Inv(init, Next(s, a))
  {
    match a
    case Start(_, _, _, _) => StartKeeps(init, s, a);
    case Deliver(id, which) => DeliverKeeps(init, s, id, which);
    case Lose(id, which) => LoseKeeps(init, s, id, which);
    case _ => CoordinatorKeeps(init, s, a);
  }

  // ---------- runs ----------

  /** The state after the first `n` actions. */
  ghost predicate Run(s0: State, actions: seq<Action>, states: seq<State>) {
    && |states| == |actions| + 1 && states[0] == s0
    && forall i :: 0 <= i < |actions| ==> Enabled(states[i], actions[i]) && states[i + 1] == Next(states[i], actions[i])
  }

  function Opening(init: seq<int>): (s: State)
    ensures |s.accounts| == |init|
  {
    State(seq(|init|, k requires 0 <= k < |init| => Account(init[k], map[])), [])
  }

  lemma {:induction false} EveryRunKeeps(init: seq<int>, actions: seq<Action>, states: seq<State>, n: nat)
    requires Run(Opening(init), actions, states) && n < |states|
    ensures Inv(init, states[n])
    decreases n
  {
    if n > 0 {
      EveryRunKeeps(init, actions, states, n - 1);
      StepKeeps(init, states[n - 1], actions[n - 1]);
    }
  }

  /** A failed transfer stays failed. */
  lemma {:induction false} FailedForGood(init: seq<int>, actions: seq<Action>, states: seq<State>, m: nat, n: nat,
                                         id: TransferId)
    requires Run(Opening(init), actions, states) && m <= n < |states|
    requires id < |states[m].transfers| && states[m].transfers[id].phase.Failed?
    ensures id < |states[n].transfers| && states[n].transfers[id].phase.Failed?
    decreases n
  {
    if m < n {
      FailedForGood(init, actions, states, m, n - 1, id);
    }
  }

  /** A transfer that is answered as failed has changed no balance and never will: its effect on every account is
      nothing, now and in all later states. And no transfer is applied more than once by either account. */
  lemma AbortIsSafe(init: seq<int>, actions: seq<Action>, states: seq<State>, m: nat, n: nat, id: TransferId)
    requires Run(Opening(init), actions, states) && m <= n < |states| && id < |states[m].transfers|
    ensures id < |states[n].transfers| && states[n].transfers[id].debited <= 1 && states[n].transfers[id].credited <= 1
    ensures states[m].transfers[id].phase.Failed? ==> forall k :: Effect(states[n].transfers[id], k) == 0
  {
    Grows(init, actions, states, m, n);
    EveryRunKeeps(init, actions, states, n);
    assert TransferOk(states[n].accounts, states[n].transfers, id);
    if states[m].transfers[id].phase.Failed? {
      FailedForGood(init, actions, states, m, n, id);
    }
  }

  lemma {:induction false} Grows(init: seq<int>, actions: seq<Action>, states: seq<State>, m: nat, n: nat)
    requires Run(Opening(init), actions, states) && m <= n < |states|
    ensures |states[m].transfers| <= |states[n].transfers|
    decreases n
  {
    if m < n {
      Grows(init, actions, states, m, n - 1);
    }
  }

  // ---------- what a transfer has done, told by its steps ----------

  datatype Request = Request(from: nat, to: nat, amount: int)

  /** The transfers asked for in the first `n` steps, in order. */
  function Requests(actions: seq<Action>, n: nat): seq<Request>
    requires n <= |actions|
  {
    if n == 0 then []
    else match actions[n - 1]
         case Start(from, to, amount, _) => Requests(actions, n - 1) + [Request(from, to, amount)]
         case _ => Requests(actions, n - 1)
  }

  predicate AsRequested(t: Transfer, r: Request) {
    t.from == r.from && t.to == r.to && t.amount == r.amount
  }

  predicate Matching(transfers: seq<Transfer>, requests: seq<Request>) {
    && |transfers| == |requests|
    && forall i {:trigger transfers[i]} :: 0 <= i < |transfers| ==> AsRequested(transfers[i], requests[i])
  }

  lemma StepMatches(s: State, a: Action, requests: seq<Request>)
    requires Enabled(s, a) && Matching(s.transfers, requests)
    ensures a.Start? ==> Matching(Next(s, a).transfers, requests + [Request(a.from, a.to, a.amount)])
    ensures !a.Start? ==> Matching(Next(s, a).transfers, requests)
  {
  }

  /** In every run the transfers are those that were asked for, in order and as they were asked for. */
  lemma {:induction false} RequestsKept(init: seq<int>, actions: seq<Action>, states: seq<State>, n: nat)
    requires Run(Opening(init), actions, states) && n < |states|
    ensures Matching(states[n].transfers, Requests(actions, n))
    decreases n
  {
    if n > 0 {
      RequestsKept(init, actions, states, n - 1);
      StepMatches(states[n - 1], actions[n - 1], Requests(actions, n - 1));
    }
  }

  /** The sum of the changes that the first `n` steps of transfer `id` have made to account `k`. */
  function OwnChange(actions: seq<Action>, states: seq<State>, id: TransferId, n: nat, k: nat): int
    requires n <= |actions| < |states| && forall i :: 0 <= i < |states| ==> k < |states[i].accounts|
  {
    if n == 0 then 0
    else OwnChange(actions, states, id, n - 1, k)
         + (if !actions[n - 1].Start? && actions[n - 1].id == id
            then states[n].accounts[k].balance - states[n - 1].accounts[k].balance else 0)
  }

  /** The message reached its account in the first `n` steps. */
  predicate Delivered(actions: seq<Action>, n: nat, id: TransferId, which: Which)
    requires n <= |actions|
  {
    exists i :: 0 <= i < n && actions[i] == Deliver(id, which)
  }

  lemma DeliveredStep(actions: seq<Action>, n: nat, id: TransferId, which: Which)
    requires 0 < n <= |actions|
    ensures Delivered(actions, n, id, which) <==>
            Delivered(actions, n - 1, id, which) || actions[n - 1] == Deliver(id, which)
  {
  }

  /** A message is answered exactly when it was delivered. */
  lemma {:induction false} AnsweredIffDelivered(init: seq<int>, actions: seq<Action>, states: seq<State>,
                                                id: TransferId, n: nat, which: Which)
    requires Run(Opening(init), actions, states) && n < |states|
    ensures Delivered(actions, n, id, which) <==>
            id < |states[n].transfers| && MailOf(states[n].transfers[id], which).Answered?
    decreases n
  {
    if n > 0 {
      AnsweredIffDelivered(init, actions, states, id, n - 1, which);
      DeliveredStep(actions, n, id, which);
      EveryRunKeeps(init, actions, states, n - 1);
      AnswerStep(init, states[n - 1], actions[n - 1], id, which);
    }
  }

  lemma AnswerStep(init: seq<int>, s: State, a: Action, id: TransferId, which: Which)
    requires Inv(init, s) && Enabled(s, a)
    ensures var u := Next(s, a);
            (id < |u.transfers| && MailOf(u.transfers[id], which).Answered?) <==>
            (id < |s.transfers| && MailOf(s.transfers[id], which).Answered?) || a == Deliver(id, which)
  {
    if id < |s.transfers| {
      assert TransferOk(s.accounts, s.transfers, id);
    }
  }

  lemma SameAccounts(init: seq<int>, actions: seq<Action>, states: seq<State>)
    requires Run(Opening(init), actions, states)
    ensures forall i :: 0 <= i < |states| ==> |states[i].accounts| == |init|
  {
    forall i | 0 <= i < |states|
      ensures |states[i].accounts| == |init|
    {
      EveryRunKeeps(init, actions, states, i);
    }
  }

  lemma ChangeStep(init: seq<int>, s: State, a: Action, id: TransferId, k: nat)
    requires Inv(init, s) && Enabled(s, a) && id < |s.transfers| && k < |s.accounts|
    ensures var u := Next(s, a);
            && id < |u.transfers| && k < |u.accounts|
            && Effect(u.transfers[id], k) - Effect(s.transfers[id], k) ==
               if !a.Start? && a.id == id then u.accounts[k].balance - s.accounts[k].balance else 0
  {
    if a.Deliver? && a.id == id {
      DeliverBalance(init, s, id, a.which, k);
    }
  }

  lemma {:induction false} OwnChangeIs(init: seq<int>, actions: seq<Action>, states: seq<State>, id: TransferId,
                                       n: nat, k: nat)
    requires Run(Opening(init), actions, states) && n < |states| && k < |init|
    requires forall i :: 0 <= i < |states| ==> |states[i].accounts| == |init|
    ensures OwnChange(actions, states, id, n, k) ==
            if id < |states[n].transfers| then Effect(states[n].transfers[id], k) else 0
    decreases n
  {
    if n > 0 {
      OwnChangeIs(init, actions, states, id, n - 1, k);
      EveryRunKeeps(init, actions, states, n - 1);
      if id < |states[n - 1].transfers| {
        ChangeStep(init, states[n - 1], actions[n - 1], id, k);
      }
    }
  }

  /** In every run the steps of a transfer have taken its amount from the account of its request that pays exactly if
      the commit was delivered there, and added it to the one that is paid exactly if the commit was delivered there;
      no other balance was changed. To a failed transfer neither commit is delivered. */
  lemma CommitsMove(init: seq<int>, actions: seq<Action>, states: seq<State>, id: TransferId, n: nat, k: nat)
    requires Run(Opening(init), actions, states) && n < |states| && k < |init| && id < |states[n].transfers|
    ensures forall i :: 0 <= i < |states| ==> |states[i].accounts| == |init|
    ensures id < |Requests(actions, n)|
    ensures var r := Requests(actions, n)[id];
            OwnChange(actions, states, id, n, k) ==
            (if k == r.to && Delivered(actions, n, id, CommTo) then r.amount else 0)
            - (if k == r.from && Delivered(actions, n, id, CommFrom) then r.amount else 0)
    ensures states[n].transfers[id].phase.Failed? ==>
              !Delivered(actions, n, id, CommFrom) && !Delivered(actions, n, id, CommTo)
  {
    SameAccounts(init, actions, states);
    OwnChangeIs(init, actions, states, id, n, k);
    RequestsKept(init, actions, states, n);
    AnsweredIffDelivered(init, actions, states, id, n, CommFrom);
    AnsweredIffDelivered(init, actions, states, id, n, CommTo);
    EveryRunKeeps(init, actions, states, n);
    assert TransferOk(states[n].accounts, states[n].transfers, id);
  }

  // ---------- when balances stay non-negative ----------

  /** The balance of every account covers everything it has promised. */
  ghost predicate Covered(s: State) {
    forall k {:trigger CoveredAt(s, k)} :: 0 <= k < |s.accounts| ==> CoveredAt(s, k)
  }

  predicate CoveredAt(s: State, k: nat)
    requires k < |s.accounts|
  {
    s.accounts[k].balance >= Held(s.accounts[k], |s.transfers|)
  }

  /** A debit that is about to be prepared is covered together with the debits prepared before, or it is refused, or it
      is prepared already. */
  predicate Careful(s: State, a: Action)
    requires Enabled(s, a)
  {
    a.Deliver? && a.which.PrepFrom? ==>
      var t := s.transfers[a.id];
      var acc := s.accounts[t.from];
      a.id in acc.prepared || acc.balance < t.amount || acc.balance >= Held(acc, |s.transfers|) + t.amount
  }

  lemma {:induction false} HeldChange(a: Account, b: Account, id: TransferId, n: nat)
    requires forall j: TransferId :: j != id ==> DebitOf(a, j) == DebitOf(b, j)
    ensures Held(b, n) == Held(a, n) + (if id < n then DebitOf(b, id) - DebitOf(a, id) else 0)
    decreases n
  {
    if n > 0 {
      HeldChange(a, b, id, n - 1);
    }
  }

  lemma {:induction false} HeldIsNat(init: seq<int>, s: State, k: nat, n: nat)
    requires Inv(init, s) && k < |s.accounts|
    ensures Held(s.accounts[k], n) >= 0
    decreases n
  {
    if n > 0 {
      HeldIsNat(init, s, k, n - 1);
      assert OwnEntry(s, k, n - 1);
      if n - 1 in s.accounts[k].prepared {
        assert TransferOk(s.accounts, s.transfers, n - 1);
      }
    }
  }

  lemma DeliverCovered(init: seq<int>, s: State, id: TransferId, which: Which)
    requires Inv(init, s) && Covered(s) && Enabled(s, Deliver(id, which)) && Careful(s, Deliver(id, which))
    ensures Covered(Next(s, Deliver(id, which)))
  {
    var u, t := Next(s, Deliver(id, which)), s.transfers[id];
    var k := Target(t, which);
    assert TransferOk(s.accounts, s.transfers, id);
    forall j | 0 <= j < |u.accounts|
      ensures CoveredAt(u, j)
    {
      assert CoveredAt(s, j);
      if j == k {
        HeldChange(s.accounts[k], u.accounts[k], id, |s.transfers|);
      }
    }
  }

  lemma StepCovered(init: seq<int>, s: State, a: Action)
    requires Inv(init, s) && Covered(s) && Enabled(s, a) && Careful(s, a)
    ensures Covered(Next(s, a))
  {
    if a.Deliver? {
      DeliverCovered(init, s, a.id, a.which);
    } else {
      var u := Next(s, a);
      forall k | 0 <= k < |u.accounts|
        ensures CoveredAt(u, k)
      {
        assert CoveredAt(s, k) && OwnEntry(s, k, |s.transfers|);
      }
    }
  }

  ghost predicate CarefulRun(actions: seq<Action>, states: seq<State>) {
    |states| == |actions| + 1 &&
    forall i :: 0 <= i < |actions| ==> Enabled(states[i], actions[i]) && Careful(states[i], actions[i])
  }

  lemma {:induction false} CoveredThroughout(init: seq<int>, actions: seq<Action>, states: seq<State>, n: nat)
    requires Run(Opening(init), actions, states) && CarefulRun(actions, states) && n < |states|
    requires forall k :: 0 <= k < |init| ==> init[k] >= 0
    ensures Covered(states[n])
    decreases n
  {
    if n > 0 {
      CoveredThroughout(init, actions, states, n - 1);
      EveryRunKeeps(init, actions, states, n - 1);
      StepCovered(init, states[n - 1], actions[n - 1]);
    }
  }

  /** In every run in which no debit is prepared beyond what the balance covers together with the debits prepared
      before, no balance is ever negative. */
  lemma NeverNegative(init: seq<int>, actions: seq<Action>, states: seq<State>, n: nat, k: nat)
    requires Run(Opening(init), actions, states) && CarefulRun(actions, states) && n < |states| && k < |init|
    requires forall j :: 0 <= j < |init| ==> init[j] >= 0
    ensures |states[n].accounts| == |init| && states[n].accounts[k].balance >= 0
  {
    EveryRunKeeps(init, actions, states, n);
    CoveredThroughout(init, actions, states, n);
    assert CoveredAt(states[n], k);
    HeldIsNat(init, states[n], k, |states[n].transfers|);
  }

  // ---------- a run that overdraws ----------

  function Fresh(to: nat, amount: int): Transfer {
    Transfer(0, to, amount, Begun, Unsent, Unsent, Unsent, Unsent, 0, 0)
  }

  /** A transfer whose source has voted yes. */
  function Voted(to: nat, amount: int): Transfer {
    Fresh(to, amount).(phase := AskedFrom, prepFrom := Answered(true))
  }

  /** The same, once its source has applied it. */
  function Debited(to: nat, amount: int): Transfer {
    Voted(to, amount).(phase := CommitFrom, prepTo := Answered(true), commFrom := Answered(true), debited := 1)
  }

  predicate Leads(s: State, a: Action, t: State) {
    Enabled(s, a) && t == Next(s, a)
  }

  ghost predicate Path(s: State, actions: seq<Action>, states: seq<State>) {
    |states| == |actions| && forall i {:trigger Leads(Before(s, states, i), actions[i], states[i])} ::
      0 <= i < |actions| ==> Leads(Before(s, states, i), actions[i], states[i])
  }

  function Before(s: State, states: seq<State>, i: nat): State
    requires i <= |states|
  {
    if i == 0 then s else states[i - 1]
  }

  function End(s: State, states: seq<State>): State {
    if states == [] then s else states[|states| - 1]
  }

  lemma PathsJoin(s: State, a: seq<Action>, x: seq<State>, b: seq<Action>, y: seq<State>)
    requires Path(s, a, x) && Path(End(s, x), b, y)
    ensures Path(s, a + b, x + y) && End(s, x + y) == End(End(s, x), y)
  {
    var actions, states := a + b, x + y;
    forall i | 0 <= i < |actions|
      ensures Leads(Before(s, states, i), actions[i], states[i])
    {
      if i < |a| {
        assert Leads(Before(s, x, i), a[i], x[i]);
        assert Before(s, states, i) == Before(s, x, i);
      } else {
        var k := i - |a|;
        assert Leads(Before(End(s, x), y, k), b[k], y[k]);
        assert Before(s, states, i) == Before(End(s, x), y, k);
      }
    }
  }

  lemma PathIsRun(s: State, actions: seq<Action>, states: seq<State>)
    requires Path(s, actions, states)
    ensures Run(s, actions, [s] + states)
  {
    var all := [s] + states;
    forall i | 0 <= i < |actions|
      ensures Enabled(all[i], actions[i]) && all[i + 1] == Next(all[i], actions[i])
    {
      assert Leads(Before(s, states, i), actions[i], states[i]);
      assert all[i] == Before(s, states, i);
    }
  }

  /** One account with money, two without. */
  function Three(source: Account, to1: Account, to2: Account, t1: Transfer, t2: Transfer): State {
    State([source, to1, to2], [t1, t2])
  }

  const NOTHING := Account(0, map[])

  /** A transfer whose source is being asked. */
  function Asked(to: nat, amount: int): Transfer {
    Fresh(to, amount).(phase := AskedFrom, prepFrom := UnderWay)
  }

  lemma BothAsked(balance: int, x: int, y: int) returns (actions: seq<Action>, states: seq<State>)
    requires 0 < x && 0 < y
    ensures Path(Opening([balance, 0, 0]), actions, states)
    ensures End(Opening([balance, 0, 0]), states) ==
            Three(Account(balance, map[]), NOTHING, NOTHING, Asked(1, x), Asked(2, y))
  {
    var source := Account(balance, map[]);
    var s0 := Opening([balance, 0, 0]);
    assert s0 == State([source, NOTHING, NOTHING], []);
    var s1 := State([source, NOTHING, NOTHING], [Fresh(1, x)]);
    var s2 := Three(source, NOTHING, NOTHING, Fresh(1, x), Fresh(2, y));
    var s3 := Three(source, NOTHING, NOTHING, Asked(1, x), Fresh(2, y));
    var s4 := Three(source, NOTHING, NOTHING, Asked(1, x), Asked(2, y));
    assert Leads(s0, Start(0, 1, x, true), s1);
    assert Leads(s1, Start(0, 2, y, true), s2);
    assert Leads(s2, AskSource(0), s3);
    assert Leads(s3, AskSource(1), s4);
    actions := [Start(0, 1, x, true), Start(0, 2, y, true), AskSource(0), AskSource(1)];
    states := [s1, s2, s3, s4];
    forall i | 0 <= i < |actions|
      ensures Leads(Before(s0, states, i), actions[i], states[i])
    {
    }
  }

  /** Both get their source's vote: each amount is covered on its own. */
  lemma BothVoted(balance: int, x: int, y: int) returns (actions: seq<Action>, states: seq<State>)
    requires 0 < x <= balance && 0 < y <= balance
    ensures var s := Three(Account(balance, map[]), NOTHING, NOTHING, Asked(1, x), Asked(2, y));
            var source := Account(balance, map[0 := Prepared(x, true), 1 := Prepared(y, true)]);
            && Path(s, actions, states)
            && End(s, states) == Three(source, NOTHING, NOTHING, Voted(1, x), Voted(2, y))
  {
    var s0 := Three(Account(balance, map[]), NOTHING, NOTHING, Asked(1, x), Asked(2, y));
    var s1 := Three(Account(balance, map[0 := Prepared(x, true)]), NOTHING, NOTHING, Voted(1, x), Asked(2, y));
    var source := Account(balance, map[0 := Prepared(x, true), 1 := Prepared(y, true)]);
    var s2 := Three(source, NOTHING, NOTHING, Voted(1, x), Voted(2, y));
    assert Leads(s0, Deliver(0, PrepFrom), s1);
    assert Leads(s1, Deliver(1, PrepFrom), s2);
    actions, states := [Deliver(0, PrepFrom), Deliver(1, PrepFrom)], [s1, s2];
    forall i | 0 <= i < |actions|
      ensures Leads(Before(s0, states, i), actions[i], states[i])
    {
    }
  }

  /** From there a transfer goes through to the commit of its source, whatever the other one does. */
  lemma FirstCommits(source: Account, x: int, t2: Transfer) returns (actions: seq<Action>, states: seq<State>)
    requires 0 in source.prepared && source.prepared[0] == Prepared(x, true)
    ensures var s := Three(source, NOTHING, NOTHING, Voted(1, x), t2);
            && Path(s, actions, states)
            && End(s, states) == Three(AfterCommit(source, 0), Account(0, map[0 := Prepared(x, false)]), NOTHING,
                                       Debited(1, x), t2)
  {
    var to := Account(0, map[0 := Prepared(x, false)]);
    var u1 := Voted(1, x).(phase := AskedTo, prepTo := UnderWay);
    var u2 := u1.(prepTo := Answered(true));
    var u3 := u2.(phase := CommitFrom, commFrom := UnderWay);
    var s0 := Three(source, NOTHING, NOTHING, Voted(1, x), t2);
    var s1 := Three(source, NOTHING, NOTHING, u1, t2);
    var s2 := Three(source, to, NOTHING, u2, t2);
    var s3 := Three(source, to, NOTHING, u3, t2);
    var s4 := Three(AfterCommit(source, 0), to, NOTHING, Debited(1, x), t2);
    assert Leads(s0, Proceed(0), s1);
    assert Leads(s1, Deliver(0, PrepTo), s2);
    assert Leads(s2, Proceed(0), s3);
    assert Leads(s3, Deliver(0, CommFrom), s4);
    actions, states := [Proceed(0), Deliver(0, PrepTo), Proceed(0), Deliver(0, CommFrom)], [s1, s2, s3, s4];
    forall i | 0 <= i < |actions|
      ensures Leads(Before(s0, states, i), actions[i], states[i])
    {
    }
  }

  lemma SecondCommits(source: Account, to1: Account, t1: Transfer, y: int)
    returns (actions: seq<Action>, states: seq<State>)
    requires 1 in source.prepared && source.prepared[1] == Prepared(y, true)
    ensures var s := Three(source, to1, NOTHING, t1, Voted(2, y));
            && Path(s, actions, states)
            && End(s, states) == Three(AfterCommit(source, 1), to1, Account(0, map[1 := Prepared(y, false)]), t1,
                                       Debited(2, y))
  {
    var to := Account(0, map[1 := Prepared(y, false)]);
    var u1 := Voted(2, y).(phase := AskedTo, prepTo := UnderWay);
    var u2 := u1.(prepTo := Answered(true));
    var u3 := u2.(phase := CommitFrom, commFrom := UnderWay);
    var s0 := Three(source, to1, NOTHING, t1, Voted(2, y));
    var s1 := Three(source, to1, NOTHING, t1, u1);
    var s2 := Three(source, to1, to, t1, u2);
    var s3 := Three(source, to1, to, t1, u3);
    var s4 := Three(AfterCommit(source, 1), to1, to, t1, Debited(2, y));
    assert Leads(s0, Proceed(1), s1);
    assert Leads(s1, Deliver(1, PrepTo), s2);
    assert Leads(s2, Proceed(1), s3);
    assert Leads(s3, Deliver(1, CommFrom), s4);
    actions, states := [Proceed(1), Deliver(1, PrepTo), Proceed(1), Deliver(1, CommFrom)], [s1, s2, s3, s4];
    forall i | 0 <= i < |actions|
      ensures Leads(Before(s0, states, i), actions[i], states[i])
    {
    }
  }

  /** For every balance and any two amounts that it covers one by one but not together, there is a run from the opening
      that ends with the balance overdrawn. */
  lemma OverlappingDebitsOverdraw(balance: int, x: int, y: int) returns (actions: seq<Action>, states: seq<State>)
    requires 0 < x <= balance && 0 < y <= balance < x + y
    ensures Run(Opening([balance, 0, 0]), actions, states)
    ensures |states[|actions|].accounts| == 3 && states[|actions|].accounts[0].balance == balance - x - y < 0
  {
    var s0 := Opening([balance, 0, 0]);
    var source := Account(balance, map[0 := Prepared(x, true), 1 := Prepared(y, true)]);
    var a1, p1 := BothAsked(balance, x, y);
    var a2, p2 := BothVoted(balance, x, y);
    PathsJoin(s0, a1, p1, a2, p2);
    var a3, p3 := FirstCommits(source, x, Voted(2, y));
    PathsJoin(s0, a1 + a2, p1 + p2, a3, p3);
    var a4, p4 := SecondCommits(AfterCommit(source, 0), Account(0, map[0 := Prepared(x, false)]), Debited(1, x), y);
    PathsJoin(s0, a1 + a2 + a3, p1 + p2 + p3, a4, p4);
    actions, states := a1 + a2 + a3 + a4, [s0] + (p1 + p2 + p3 + p4);
    PathIsRun(s0, actions, p1 + p2 + p3 + p4);
  }

  // ---------- conservation ----------

  function Balances(accounts: seq<Account>): (out: seq<int>)
    ensures |out| == |accounts|
  {
    seq(|accounts|, k requires 0 <= k < |accounts| => accounts[k].balance)
  }

  /** What the first `n` transfers have created or destroyed so far. */
  function Flow(transfers: seq<Transfer>, n: nat): int
    requires n <= |transfers|
  {
    if n == 0 then 0
    else
      var t := transfers[n - 1];
      Flow(transfers, n - 1) + t.amount * (t.credited - t.debited)
  }

  function EffectSum(t: Transfer, m: nat): int {
    if m == 0 then 0 else EffectSum(t, m - 1) + Effect(t, m - 1)
  }

  function NetSum(transfers: seq<Transfer>, n: nat, m: nat): int
    requires n <= |transfers|
  {
    if m == 0 then 0 else NetSum(transfers, n, m - 1) + Net(transfers, n, m - 1)
  }

  lemma {:induction false} EffectSumIs(t: Transfer, m: nat)
    ensures EffectSum(t, m) ==
            (if t.to < m then t.amount * t.credited else 0) - (if t.from < m then t.amount * t.debited else 0)
    decreases m
  {
    if m > 0 {
      EffectSumIs(t, m - 1);
    }
  }

  lemma {:induction false} NetSumStep(transfers: seq<Transfer>, n: nat, m: nat)
    requires 0 < n <= |transfers|
    ensures NetSum(transfers, n, m) == NetSum(transfers, n - 1, m) + EffectSum(transfers[n - 1], m)
    decreases m
  {
    if m > 0 {
      NetSumStep(transfers, n, m - 1);
    }
  }

  lemma {:induction false} NetSumNone(transfers: seq<Transfer>, m: nat)
    ensures NetSum(transfers, 0, m) == 0
    decreases m
  {
    if m > 0 {
      NetSumNone(transfers, m - 1);
    }
  }

  lemma {:induction false} NetSumIsFlow(transfers: seq<Transfer>, n: nat, m: nat)
    requires n <= |transfers| && forall i :: 0 <= i < n ==> transfers[i].from < m && transfers[i].to < m
    ensures NetSum(transfers, n, m) == Flow(transfers, n)
    decreases n
  {
    if n == 0 {
      NetSumNone(transfers, m);
    } else {
      NetSumIsFlow(transfers, n - 1, m);
      NetSumStep(transfers, n, m);
      EffectSumIs(transfers[n - 1], m);
    }
  }

  lemma {:induction false} TotalIs(init: seq<int>, s: State, m: nat)
    requires Balanced(init, s) && m <= |init|
    ensures Total(Balances(s.accounts), m) == Total(init, m) + NetSum(s.transfers, |s.transfers|, m)
    decreases m
  {
    if m > 0 {
      TotalIs(init, s, m - 1);
    }
  }

  /** Both accounts have processed the commit of every transfer that was decided. */
  predicate AllCommitted(s: State) {
    forall id :: 0 <= id < |s.transfers| ==>
      (s.transfers[id].Decided() ==> s.transfers[id].commFrom.Answered? && s.transfers[id].commTo.Answered?)
  }

  lemma {:induction false} NoFlow(s: State, n: nat)
    requires TransfersOk(s) && AllCommitted(s) && n <= |s.transfers|
    ensures Flow(s.transfers, n) == 0
    decreases n
  {
    if n > 0 {
      NoFlow(s, n - 1);
      assert TransferOk(s.accounts, s.transfers, n - 1);
    }
  }

  /** In every run the total differs from the first one by the transfers that only one side has applied; once both
      commits of every decided transfer are processed it is the same. */
  lemma TotalIsKept(init: seq<int>, actions: seq<Action>, states: seq<State>, n: nat)
    requires Run(Opening(init), actions, states) && n < |states|
    ensures |states[n].accounts| == |init|
    ensures Total(Balances(states[n].accounts), |init|) ==
            Total(init, |init|) + Flow(states[n].transfers, |states[n].transfers|)
    ensures AllCommitted(states[n]) ==> Total(Balances(states[n].accounts), |init|) == Total(init, |init|)
  {
    var s := states[n];
    EveryRunKeeps(init, actions, states, n);
    forall i | 0 <= i < |s.transfers|
      ensures s.transfers[i].from < |init| && s.transfers[i].to < |init|
    {
      assert TransferOk(s.accounts, s.transfers, i);
    }
    TotalIs(init, s, |init|);
    NetSumIsFlow(s.transfers, |s.transfers|, |init|);
    if AllCommitted(s) {
      NoFlow(s, |s.transfers|);
    }
  }
}
