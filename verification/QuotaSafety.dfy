/**
 Over every run of the control plane: what a token's counter says, and that no refund
 is given twice, too early, or to a counter that is already at zero.
 */
module QuotaSafety {
  import opened Wrappers
  import opened Tunnels
  import opened Quotas
  import opened ControlPlane

  // ---------------------------------------------------------------- the invariant

  ghost function OwedBy(s: State, token: string): set<string> {
    set id | id in s.owed && id in s.born && s.born[id].session.token == token
  }

  predicate Covered(owed: set<string>, t: Tunnel) {
    !IsAnon(t.token) ==> t.id in owed
  }

  ghost predicate CoversTeardown(owed: set<string>, td: Teardown) {
    && (forall t :: t in td.todo ==> Covered(owed, t))
    && (!td.work.Waiting? ==> Covered(owed, td.work.t))
  }

  /** Whoever may still hold a tunnel that was charged finds it on the books. */
  ghost predicate AllCovered(s: State) {
    && (forall sub :: sub in s.http ==> Covered(s.owed, s.http[sub]))
    && (forall p :: p in s.tcp ==> Covered(s.owed, s.tcp[p]))
    && (forall id :: id in s.requests ==> Covered(s.owed, s.requests[id].tunnel))
    && (forall ses :: ses in s.teardowns ==> CoversTeardown(s.owed, s.teardowns[ses]))
  }

  ghost predicate Accounts(s: State) {
    && (forall id :: id in s.owed ==> id in s.born && !IsAnon(s.born[id].session.token))
    && (forall id :: id in s.refunded ==> id in s.born && id !in s.owed)
  }

  /** The counter of a token is the number of its charges still on the books. */
  ghost predicate Balanced(s: State) {
    forall token :: !IsAnon(token) ==>
      Count(s.quotas, token) == |OwedBy(s, token)| && Count(s.quotas, token) <= Limit(s.quotas, token)
  }

  ghost predicate Books(s: State) {
    && Identity(s) && Teardowns(s)
    && AllCovered(s) && Accounts(s) && Balanced(s)
  }

  // ---------------------------------------------------------------- refunds

  predicate Repays(step: Step) {
    step.Refuse? || step.RefundNext?
  }

  /** The tunnel a refund step is for. */
  ghost function Repaid(s: State, step: Step): Tunnel
    requires Enabled(s, step) && Repays(step)
  {
    if step.Refuse? then s.requests[step.id].tunnel else s.teardowns[step.session].work.t
  }

  /** Before a refund its tunnel has left the registry, its token is known to be charged
      for it, and so the floor of the counter is not what stops the decrement. */
  lemma RefundIsDue(s: State, step: Step)
    requires Books(s) && Enabled(s, step) && Repays(step)
    ensures var t := Repaid(s, step);
            && Genuine(s, t) && !Live(s, t.id)
            && (!IsAnon(t.token) ==> t.id in s.owed && t.id !in s.refunded && Count(s.quotas, t.token) > 0)
  {
    var t := Repaid(s, step);
    if step.Refuse? {
      assert s.requests[step.id].tunnel.id == step.id;
    } else {
      assert Orderly(s, step.session, s.teardowns[step.session]);
      assert Held(s, step.session, t);
    }
    if !IsAnon(t.token) {
      assert t.id in OwedBy(s, t.token);
    }
  }

  lemma RepayEffect(s: State, step: Step)
    requires Books(s) && Enabled(s, step) && Repays(step)
    ensures var s', t := Apply(s, step), Repaid(s, step);
            && s'.quotas == Refund(s.quotas, t.token)
            && s'.owed == s.owed - {t.id}
            && s'.refunded == (if IsAnon(t.token) then s.refunded else s.refunded + {t.id})
            && s'.http == s.http && s'.tcp == s.tcp && s'.born == s.born
            && (forall i :: i in s'.requests ==>
                  i in s.requests && s'.requests[i] == s.requests[i] && s.requests[i].tunnel.id != t.id)
            && s'.teardowns == if step.Refuse? then s.teardowns
                               else s.teardowns[step.session := s.teardowns[step.session].(work := Waiting)]
  {
    if step.RefundNext? {
      assert Orderly(s, step.session, s.teardowns[step.session]);
      assert Held(s, step.session, Repaid(s, step));
    }
  }

  // ---------------------------------------------------------------- preservation

  lemma BooksStep(s: State, step: Step)
    requires Books(s) && Enabled(s, step)
    ensures Books(Apply(s, step))
  {
    IdentityStep(s, step);
    TeardownsStep(s, step);
    CoveredStep(s, step);
    if step.Begin? {
      BalancedBegin(s, step);
    } else if Repays(step) {
      BalancedRepays(s, step);
    } else {
      BalancedOther(s, step);
    }
  }

  lemma CoveredStep(s: State, step: Step)
    requires Books(s) && Enabled(s, step)
    ensures AllCovered(Apply(s, step))
  {
    var s' := Apply(s, step);
    if step.Begin? {
      CoveredBegin(s, step);
    } else if Repays(step) {
      CoveredRepays(s, step);
    } else if TearsDown(step) {
      CoveredTearsDown(s, step);
    } else {
      StepFrames(s, step);
      if Registering(step) {
        RegisterEffect(s, step);
      }
      if Thins(s, s') {
        CoveredThins(s, s');
      } else {
        CoveredRegisters(s, s', NewTunnel(s, step));
      }
    }
  }

  lemma CoveredThins(s: State, s': State)
    requires AllCovered(s) && Thins(s, s') && s'.owed == s.owed && s'.teardowns == s.teardowns
    ensures AllCovered(s')
  {
  }

  lemma CoveredRegisters(s: State, s': State, t: Tunnel)
    requires AllCovered(s) && Registers(s, s', t) && s.requests[t.id].tunnel.token == t.token
    requires Identity(s)
    ensures AllCovered(s')
  {
  }

  lemma CoveredBegin(s: State, step: Step)
    requires Books(s) && Enabled(s, step) && step.Begin?
    ensures AllCovered(Apply(s, step))
  {
    var s' := Apply(s, step);
    assert forall t :: Covered(s.owed, t) ==> Covered(s'.owed, t);
  }

  lemma CoveredTearsDown(s: State, step: Step)
    requires AllCovered(s) && Enabled(s, step) && TearsDown(step) && !Repays(step)
    ensures AllCovered(Apply(s, step))
  {
    var s', ses := Apply(s, step), step.session;
    TeardownFrames(s, step);
    CoveredOwnTeardown(s, step);
    CoveredThins(s, s'.(teardowns := s.teardowns));
    assert forall other :: other in s'.teardowns && other != ses ==> s'.teardowns[other] == s.teardowns[other];
  }

  lemma CoveredOwnTeardown(s: State, step: Step)
    requires AllCovered(s) && Enabled(s, step) && TearsDown(step) && !Repays(step)
    ensures CoversTeardown(s.owed, Apply(s, step).teardowns[step.session])
  {
  }

  /** Nobody else holds the tunnel that is repaid. */
  lemma CoveredRepays(s: State, step: Step)
    requires Books(s) && Enabled(s, step) && Repays(step)
    ensures AllCovered(Apply(s, step))
  {
    var s', t := Apply(s, step), Repaid(s, step);
    RepayEffect(s, step);
    RefundIsDue(s, step);
    forall ses | ses in s'.teardowns
      ensures CoversTeardown(s'.owed, s'.teardowns[ses])
    {
      HoldersDiffer(s, step, ses);
      CoversForgets(s.owed, s.teardowns[ses], s'.teardowns[ses], t.id);
    }
    CoveredForgets(s, s', t.id);
  }

  lemma CoversForgets(owed: set<string>, td: Teardown, td': Teardown, id: string)
    requires CoversTeardown(owed, td) && td'.todo == td.todo && (td'.work == td.work || td'.work.Waiting?)
    requires forall u :: u in td.todo ==> u.id != id
    requires !td'.work.Waiting? ==> td.work.t.id != id
    ensures CoversTeardown(owed - {id}, td')
  {
  }

  lemma CoveredForgets(s: State, s': State, id: string)
    requires AllCovered(s) && !Live(s, id)
    requires s'.owed == s.owed - {id} && s'.http == s.http && s'.tcp == s.tcp
    requires forall i :: i in s'.requests ==> i in s.requests && s'.requests[i] == s.requests[i] && s.requests[i].tunnel.id != id
    requires forall ses :: ses in s'.teardowns ==> CoversTeardown(s'.owed, s'.teardowns[ses])
    ensures AllCovered(s')
  {
  }

  lemma HoldersDiffer(s: State, step: Step, ses: Session)
    requires Books(s) && Enabled(s, step) && Repays(step) && ses in s.teardowns
    ensures forall u :: u in s.teardowns[ses].todo ==> u.id != Repaid(s, step).id
    ensures !s.teardowns[ses].work.Waiting? && (step.RefundNext? ==> ses != step.session) ==>
              s.teardowns[ses].work.t.id != Repaid(s, step).id
  {
    assert Orderly(s, ses, s.teardowns[ses]);
    RefundIsDue(s, step);
    if step.RefundNext? {
      assert Orderly(s, step.session, s.teardowns[step.session]);
      assert Held(s, step.session, Repaid(s, step));
    }
    forall u | u in s.teardowns[ses].todo
      ensures u.id != Repaid(s, step).id
    {
      assert Held(s, ses, u);
    }
  }

  lemma BalancedBegin(s: State, step: Step)
    requires Books(s) && Enabled(s, step) && step.Begin?
    ensures Accounts(Apply(s, step)) && Balanced(Apply(s, step))
  {
    var s', id, token := Apply(s, step), step.id, step.session.token;
    assert s'.born == s.born[id := Birth(step.session, step.kind)];
    if Charge(s.quotas, token).Ok? && !IsAnon(token) {
      ChargeEffect(s.quotas, token);
      assert s'.owed == s.owed + {id};
      AccountsCharge(s, s', id);
      BalancedCharge(s, s', id, token);
    } else {
      assert s'.quotas == s.quotas && s'.owed == s.owed;
      assert forall t :: OwedBy(s', t) == OwedBy(s, t);
    }
  }

  lemma AccountsCharge(s: State, s': State, id: string)
    requires Accounts(s) && id !in s.born && id in s'.born && !IsAnon(s'.born[id].session.token)
    requires s'.born == s.born[id := s'.born[id]] && s'.owed == s.owed + {id} && s'.refunded == s.refunded
    ensures Accounts(s')
  {
  }

  lemma BalancedCharge(s: State, s': State, id: string, token: string)
    requires Accounts(s) && Balanced(s) && id !in s.born && !IsAnon(token)
    requires id in s'.born && s'.born[id].session.token == token && s'.born == s.born[id := s'.born[id]]
    requires s'.owed == s.owed + {id} && s'.refunded == s.refunded
    requires Charge(s.quotas, token) == Ok(s'.quotas)
    ensures Balanced(s')
  {
    ChargeEffect(s.quotas, token);
    assert OwedBy(s', token) == OwedBy(s, token) + {id};
    assert forall t :: t != token ==> OwedBy(s', t) == OwedBy(s, t);
  }

  lemma BalancedRepays(s: State, step: Step)
    requires Books(s) && Enabled(s, step) && Repays(step)
    ensures Accounts(Apply(s, step)) && Balanced(Apply(s, step))
  {
    var s', t := Apply(s, step), Repaid(s, step);
    RepayEffect(s, step);
    RefundIsDue(s, step);
    if IsAnon(t.token) {
      assert s'.owed == s.owed;
      assert forall token :: OwedBy(s', token) == OwedBy(s, token);
    } else {
      BalancedRefund(s, s', t.id, t.token);
    }
  }

  lemma BalancedRefund(s: State, s': State, id: string, token: string)
    requires Accounts(s) && Balanced(s) && id in OwedBy(s, token) && !IsAnon(token)
    requires s'.born == s.born && s'.owed == s.owed - {id} && s'.refunded == s.refunded + {id}
    requires s'.quotas == Refund(s.quotas, token)
    ensures Accounts(s') && Balanced(s')
  {
    RefundEffect(s.quotas, token);
    assert OwedBy(s', token) == OwedBy(s, token) - {id};
    assert forall t :: t != token ==> OwedBy(s', t) == OwedBy(s, t);
  }

  lemma BalancedOther(s: State, step: Step)
    requires Accounts(s) && Balanced(s) && Enabled(s, step) && !step.Begin? && !Repays(step)
    ensures Accounts(Apply(s, step)) && Balanced(Apply(s, step))
  {
    var s' := Apply(s, step);
    StepFrames(s, step);
    if step.NewKey? {
      assert forall token :: Count(s'.quotas, token) == Count(s.quotas, token);
      assert forall token :: Limit(s'.quotas, token) >= Limit(s.quotas, token);
    }
    assert forall token :: OwedBy(s', token) == OwedBy(s, token);
  }

  lemma BooksStart(s: State)
    requires Start(s)
    ensures Books(s)
  {
    assert forall token :: OwedBy(s, token) == {};
  }

  lemma {:induction false} BooksAlways(states: seq<State>, steps: seq<Step>, i: nat)
    requires IsRun(states, steps) && i < |states|
    ensures Books(states[i])
  {
    if i == 0 {
      BooksStart(states[0]);
    } else {
      BooksAlways(states, steps, i - 1);
      BooksStep(states[i - 1], steps[i - 1]);
    }
  }

  // ---------------------------------------------------------------- main results

  ghost function IdsOf<K>(m: map<K, Tunnel>, keys: set<K>): set<string>
    requires keys <= m.Keys
  {
    set k | k in keys :: m[k].id
  }

  lemma {:induction false} AsManyIdsAsKeys<K>(m: map<K, Tunnel>, keys: set<K>)
    requires keys <= m.Keys
    requires forall a, b :: a in keys && b in keys && m[a].id == m[b].id ==> a == b
    ensures |IdsOf(m, keys)| == |keys|
  {
    if keys != {} {
      var k :| k in keys;
      AsManyIdsAsKeys(m, keys - {k});
      assert IdsOf(m, keys) == IdsOf(m, keys - {k}) + {m[k].id};
    }
  }

  lemma SubsetSize<T>(a: set<T>, b: set<T>)
    requires a <= b
    ensures |a| <= |b|
  {
    assert b == a + (b - a);
  }

  lemma KeyWithId<K>(m: map<K, Tunnel>, keys: set<K>, id: string) returns (k: K)
    requires keys <= m.Keys && id in IdsOf(m, keys)
    ensures k in keys && m[k].id == id
  {
    k :| k in keys && m[k].id == id;
  }

  ghost function TokenIds<K>(m: map<K, Tunnel>, token: string): set<string> {
    IdsOf(m, KeysOf(m, token))
  }

  lemma HttpIdsAreOwed(s: State, token: string)
    requires Books(s) && !IsAnon(token)
    ensures |TokenIds(s.http, token)| == |KeysOf(s.http, token)|
    ensures forall id :: id in TokenIds(s.http, token) ==> id in OwedBy(s, token) && s.born[id].kind == Http
  {
    AsManyIdsAsKeys(s.http, KeysOf(s.http, token));
    assert forall sub :: sub in s.http ==> Genuine(s, s.http[sub]) && Covered(s.owed, s.http[sub]);
  }

  lemma TcpIdsAreOwed(s: State, token: string)
    requires Books(s) && !IsAnon(token)
    ensures |TokenIds(s.tcp, token)| == |KeysOf(s.tcp, token)|
    ensures forall id :: id in TokenIds(s.tcp, token) ==> id in OwedBy(s, token) && s.born[id].kind == Tcp
  {
    forall p: int, q: int | p in s.tcp && q in s.tcp && s.tcp[p].id == s.tcp[q].id
      ensures p == q
    {
    }
    AsManyIdsAsKeys(s.tcp, KeysOf(s.tcp, token));
    forall id | id in TokenIds(s.tcp, token)
      ensures id in OwedBy(s, token) && s.born[id].kind == Tcp
    {
      var p := KeyWithId(s.tcp, KeysOf(s.tcp, token), id);
      assert Genuine(s, s.tcp[p]) && Covered(s.owed, s.tcp[p]);
    }
  }

  lemma LiveIsOwed(s: State, token: string)
    requires Books(s) && !IsAnon(token)
    ensures LiveCount(s.http, s.tcp, token) <= |OwedBy(s, token)|
  {
    HttpIdsAreOwed(s, token);
    TcpIdsAreOwed(s, token);
    var httpIds, tcpIds := TokenIds(s.http, token), TokenIds(s.tcp, token);
    assert httpIds * tcpIds == {};
    assert |httpIds + tcpIds| == |httpIds| + |tcpIds|;
    SubsetSize(httpIds + tcpIds, OwedBy(s, token));
  }

  /** At every moment of every run, a token has at most as many registered tunnels as its
      counter says, and its counter is within its limit. */
  lemma QuotaHolds(states: seq<State>, steps: seq<Step>, i: nat, token: string)
    requires IsRun(states, steps) && i < |states| && !IsAnon(token)
    ensures LiveCount(states[i].http, states[i].tcp, token) <= Count(states[i].quotas, token) <= Limit(states[i].quotas, token)
  {
    BooksAlways(states, steps, i);
    LiveIsOwed(states[i], token);
  }

  /** Every refund in every run takes exactly one off a counter that is above zero, for a
      tunnel that is not registered at that moment nor ever after. */
  lemma RefundsAreDue(states: seq<State>, steps: seq<Step>, i: nat)
    requires IsRun(states, steps) && i < |steps| && Repays(steps[i])
    requires !IsAnon(Repaid(states[i], steps[i]).token)
    ensures var t := Repaid(states[i], steps[i]);
            && Count(states[i].quotas, t.token) > 0
            && Count(states[i + 1].quotas, t.token) == Count(states[i].quotas, t.token) - 1
            && forall k :: i <= k < |states| ==> !Live(states[k], t.id)
  {
    var t := Repaid(states[i], steps[i]);
    BooksAlways(states, steps, i);
    RefundIsDue(states[i], steps[i]);
    RepayEffect(states[i], steps[i]);
    RefundEffect(states[i].quotas, t.token);
    forall k | i <= k < |states|
      ensures !Live(states[k], t.id)
    {
      if k > i {
        RefundedStays(states, steps, i + 1, k, t.id);
        BooksAlways(states, steps, k);
        RefundedIsNotLive(states[k], t.id);
      }
    }
  }

  lemma RefundedIsNotLive(s: State, id: string)
    requires Books(s) && id in s.refunded && id in s.born && !IsAnon(s.born[id].session.token)
    ensures !Live(s, id)
  {
    forall sub | sub in s.http
      ensures s.http[sub].id != id
    {
      assert Genuine(s, s.http[sub]) && Covered(s.owed, s.http[sub]);
    }
    forall p | p in s.tcp
      ensures s.tcp[p].id != id
    {
      assert Genuine(s, s.tcp[p]) && Covered(s.owed, s.tcp[p]);
    }
  }

  lemma {:induction false} RefundedStays(states: seq<State>, steps: seq<Step>, i: nat, k: nat, id: string)
    requires IsRun(states, steps) && i <= k < |states|
    requires id in states[i].refunded && id in states[i].born
    ensures id in states[k].refunded && id in states[k].born
    ensures states[k].born[id] == states[i].born[id]
    decreases k - i
  {
    if i < k {
      RefundedStays(states, steps, i, k - 1, id);
      RefundedStep(states[k - 1], steps[k - 1], id);
    }
  }

  lemma RefundedStep(s: State, step: Step, id: string)
    requires Enabled(s, step) && id in s.refunded && id in s.born
    ensures var s' := Apply(s, step); id in s'.refunded && id in s'.born && s'.born[id] == s.born[id]
  {
    StepFrames(s, step);
    if Registering(step) {
      assert Apply(s, step).born == s.born;
    }
  }

  /** No tunnel is refunded twice in a run. */
  lemma RefundedOnce(states: seq<State>, steps: seq<Step>, i: nat, j: nat)
    requires IsRun(states, steps) && i < j < |steps| && Repays(steps[i]) && Repays(steps[j])
    requires !IsAnon(Repaid(states[i], steps[i]).token)
    ensures Repaid(states[i], steps[i]).id != Repaid(states[j], steps[j]).id
  {
    var t := Repaid(states[i], steps[i]);
    BooksAlways(states, steps, i);
    RefundIsDue(states[i], steps[i]);
    RepayEffect(states[i], steps[i]);
    RefundedStays(states, steps, i + 1, j, t.id);
    BooksAlways(states, steps, j);
    RefundIsDue(states[j], steps[j]);
  }
}
