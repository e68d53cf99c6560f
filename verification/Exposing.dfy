/** PROCEDURE EXPOSE: an exposed variable is one variable, the caller's and the callee's. */
module Exposing {
  import opened Options
  import opened NumberText
  import opened IntegerFastPath
  import opened Bytecode
  import opened VmValues
  import opened VarPool
  import opened CoreVm
  import opened Activation
  import opened Isolation

  /** The name is handed down from the k-th pool to every pool above it. */
  predicate HandedDown(p: Pools, k: nat, name: string)
  {
    forall i :: k <= i < |p| ==> name in p[i].exposed
  }

  /** Then reading it is reading the variable of the pools below, and storing it is storing that one. */
  lemma {:induction false} SharedBelow(p: Pools, k: nat, name: string)
    requires 1 <= k <= |p| && HandedDown(p, k, name)
    ensures Owner(p, name) == Owner(p[..k], name) < k
    decreases |p|
  {
    if k < |p| {
      var q := p[..|p| - 1];
      assert q[..k] == p[..k];
      assert name in p[|p| - 1].exposed;
      SharedBelow(q, k, name);
    } else {
      assert p[..k] == p;
    }
  }

  lemma SharedIsRead(p: Pools, k: nat, name: string)
    requires 1 <= k <= |p| && HandedDown(p, k, name)
    ensures Get(p, name) == Get(p[..k], name)
  {
    hide Owner;
    SharedBelow(p, k, name);
  }

  lemma SharedIsStored(p: Pools, k: nat, name: string, v: Cell)
    requires 1 <= k <= |p| && HandedDown(p, k, name)
    ensures Get(Set(p, name, v)[..k], name) == Some(v)
  {
    hide Owner;
    SharedBelow(p, k, name);
    var q := Set(p, name, v);
    OwnerSame(q[..k], p[..k], name);
  }

  lemma SharedIsDropped(p: Pools, k: nat, name: string)
    requires 1 <= k <= |p| && HandedDown(p, k, name)
    ensures Get(Drop(p, name)[..k], name) == None
  {
    hide Owner;
    SharedBelow(p, k, name);
    var q := Drop(p, name);
    OwnerSame(q[..k], p[..k], name);
  }

  /** After PROCEDURE EXPOSE of a name the callee reads what the caller has, and what it stores the caller finds. */
  lemma ExposedIsOne(p: Program, m: Machine, s: nat, v: Cell)
    requires m.frames != [] && s < |p.im.tabs.syms|
    ensures Procedure(m).Going? && Expose(p, Procedure(m).m, s).Going?
    ensures var n, k := p.im.tabs.syms[s], |m.core.pools|;
            var q := Expose(p, Procedure(m).m, s).m.core.pools;
            && |q| == k + 1 && q[..k] == m.core.pools
            && Get(q, n) == Get(m.core.pools, n)
            && Get(Set(q, n, v)[..k], n) == Some(v)
            && Get(Drop(q, n)[..k], n) == None
  {
    var n, k := p.im.tabs.syms[s], |m.core.pools|;
    var q := Expose(p, Procedure(m).m, s).m.core.pools;
    assert q[..k] == m.core.pools;
    hide Get, Set, Drop, Expose, Procedure;
    SharedIsRead(q, k, n);
    SharedIsStored(q, k, n, v);
    SharedIsDropped(q, k, n);
  }

  /** Exposing one name hides none of the others. */
  lemma ExposedStays(p: Program, m: Machine, s: nat, name: string, k: nat)
    requires s < |p.im.tabs.syms| && k < |m.core.pools| && HandedDown(m.core.pools, k, name)
    ensures Expose(p, m, s).Going? && HandedDown(Expose(p, m, s).m.core.pools, k, name)
  {
  }

  /**
   * The companion of isolation.  An activation in m1 has run PROCEDURE and exposed a name over k pools of its callers.
   * Whatever it does and calls, without running PROCEDURE again, when it is about to return the caller finds in the name
   * what the callee finds there, the value last stored; and after the return still, RESULT apart.
   */
  lemma ExposedComesBack(p: Program, n: nat, m1: Machine, k: nat, value: bool, name: string)
    requires m1.frames != [] && Behind(m1, |m1.frames| - 1, k) && k >= 1 && name in m1.core.pools[k].exposed && name != "RESULT"
    requires (forall j :: 0 <= j <= n && Machines(p, j, m1).Going? ==> |Machines(p, j, m1).m.frames| >= |m1.frames|)
             && NeverTwice(p, n, m1)
             && Machines(p, n, m1).Going? && |Machines(p, n, m1).m.frames| == |m1.frames|
    ensures var w := Machines(p, n, m1).m;
            var x := if value then ReturnValue(p, w) else Return(p, w);
            && |w.core.pools| == k + 1 && Get(w.core.pools[..k], name) == Get(w.core.pools, name)
            && (x.Going? ==> |x.m.core.pools| == k && Get(x.m.core.pools, name) == Get(w.core.pools, name))
  {
    hide Activation.Next, PoolsMatch, SecondProcedure, Machines, ReturnValue, Return, Shields, Get, Set, Drop, Behind;
    var d := |m1.frames| - 1;
    CalleeIsShielded(p, n, m1, d, k);
    var w := Machines(p, n, m1).m;
    BehindAtTop(w, d, k);
    StillExposed(m1.core.pools, w.core.pools, k, name);
    OnTop(w, d, k);
    SharedIsRead(w.core.pools, k, name);
    if !value {
      ReturnPools(p, w, k);
    } else if w.core.stack != [] {
      ReturnValuePools(p, w, k);
      GetSet(w.core.pools[..k], "RESULT", Top(w.core, 0), name);
    } else {
      NothingToReturn(p, w);
    }
  }

  lemma OnTop(m: Machine, depth: nat, k: nat)
    requires Behind(m, depth, k) && |m.frames| == depth + 1
    ensures |m.core.pools| == k + 1
  {
    ScopeAt(m.frames, depth);
  }

  lemma StillExposed(p: Pools, q: Pools, k: nat, name: string)
    requires Shields(p, q, k) && name in p[k].exposed
    ensures name in q[k].exposed
  {
  }
}
