/**
 A second seed run is a fixed point.

 Running plans leaves every node's attributes equal to what it started with overlaid by the
 writes aimed at it, in order (`Writes`). Such an overlay is already present after the first
 run, so replaying it, in any order that keeps each node's writes in sequence, ends where it began.
 */
module SeedFixedPoint {
  import opened Prelude
  import opened Json
  import opened SeedStore
  import opened SeedPlans

  /** How plans resolve. The proof needs only that they behave, not how they do it. */
  datatype Engine = Engine(resolve: (Plan, Store) -> Option<Op>)

  /** A plan writes its own kind under its whole key, and depends only on the kinds it reads. */
  ghost predicate Behaves(e: Engine, p: Plan)
  {
    && (forall s :: e.resolve(p, s).Some? ==> Keyed(e.resolve(p, s).value) && e.resolve(p, s).value.kind == KindOf(p))
    && (forall s, t {:trigger Agree(s, t, Reads(p))} :: Agree(s, t, Reads(p)) ==> SameWrite(e.resolve(p, s), e.resolve(p, t)))
  }

  /** The store after all plans; None when one of them cannot be resolved. */
  function Run(e: Engine, plans: seq<Plan>, s: Store): Option<Store>
    decreases plans
  {
    if plans == [] then Some(s)
    else
      var op := e.resolve(plans[0], s);
      if op.None? then None else Run(e, plans[1..], Apply(s, op.value))
  }

  ghost predicate Usable(e: Engine, plans: seq<Plan>)
  {
    forall p :: p in plans ==> Behaves(e, p)
  }

  lemma UsableTail(e: Engine, plans: seq<Plan>)
    requires Usable(e, plans) && plans != []
    ensures Behaves(e, plans[0]) && Usable(e, plans[1..])
  {
    assert plans[0] in plans && forall p :: p in plans[1..] ==> p in plans;
  }

  lemma OrderedTail(plans: seq<Plan>)
    requires Ordered(plans) && plans != []
    ensures Ordered(plans[1..]) && forall p :: p in plans ==> KindOf(p) !in Reads(plans[0])
  {
    forall i, j | 0 <= i <= j < |plans[1..]| ensures KindOf(plans[1..][j]) !in Reads(plans[1..][i]) {
      assert KindOf(plans[j + 1]) !in Reads(plans[i + 1]);
    }
    forall p | p in plans ensures KindOf(p) !in Reads(plans[0]) {
      var j :| 0 <= j < |plans| && plans[j] == p;
      assert KindOf(plans[j]) !in Reads(plans[0]);
    }
  }

  lemma StepEffect(e: Engine, plans: seq<Plan>, s: Store)
    requires Usable(e, plans) && plans != [] && Run(e, plans, s).Some?
    ensures var op := e.resolve(plans[0], s);
            op.Some? && Keyed(op.value) && op.value.kind == KindOf(plans[0])
            && Run(e, plans[1..], Apply(s, op.value)) == Run(e, plans, s)
            && Kept(s, Apply(s, op.value))
  {
    UsableTail(e, plans);
    ApplyEffect(s, e.resolve(plans[0], s).value);
  }

  /** A run keeps every node it started with, key and relations included. */
  lemma {:induction false} RunKeeps(e: Engine, plans: seq<Plan>, s: Store)
    requires Usable(e, plans) && Run(e, plans, s).Some?
    ensures Kept(s, Run(e, plans, s).value)
    decreases plans
  {
    if plans != [] {
      UsableTail(e, plans);
      StepEffect(e, plans, s);
      var next := Apply(s, e.resolve(plans[0], s).value);
      RunKeeps(e, plans[1..], next);
      KeptTransitive(s, next, Run(e, plans, s).value);
    }
  }

  /** A run leaves kinds it does not write alone. */
  lemma {:induction false} RunAgrees(e: Engine, plans: seq<Plan>, s: Store, kinds: set<Kind>)
    requires Usable(e, plans) && Run(e, plans, s).Some?
    requires forall p :: p in plans ==> KindOf(p) !in kinds
    ensures Agree(s, Run(e, plans, s).value, kinds)
    decreases plans
  {
    if plans != [] {
      UsableTail(e, plans);
      StepEffect(e, plans, s);
      var op := e.resolve(plans[0], s).value;
      var next := Apply(s, op);
      assert plans[0] in plans && forall p :: p in plans[1..] ==> p in plans;
      ApplyAgrees(s, op, kinds);
      RunAgrees(e, plans[1..], next, kinds);
      AgreeTransitive(s, next, Run(e, plans, s).value, kinds);
    }
  }

  // ---- The writes aimed at one node ----

  /** The position a plan's key finds in the finished store. */
  function Target(e: Engine, p: Plan, t: Store): Option<nat>
  {
    var op := e.resolve(p, t);
    if op.None? then None else First(t, op.value.kind, op.value.filter)
  }

  function Write(e: Engine, p: Plan, n: nat, t: Store): Item
  {
    var op := e.resolve(p, t);
    if op.None? then map[] else WriteAt(op.value, Target(e, p, t), n)
  }

  /** Everything the plans write to node `n`, later writes winning. */
  function Writes(e: Engine, plans: seq<Plan>, n: nat, t: Store): Item
  {
    if plans == [] then map[] else Write(e, plans[0], n, t) + Writes(e, plans[1..], n, t)
  }

  /** Every plan resolves in `t` and finds its node there. */
  predicate Settled(e: Engine, plans: seq<Plan>, t: Store)
  {
    forall p :: p in plans ==> Target(e, p, t).Some?
  }

  lemma OverlayAssociates(a: Item, b: Item, c: Item)
    ensures a + b + c == a + (b + c)
  {
  }

  /** The plan run at `s` writes the same thing to the same node when looked at from the end of the run. */
  lemma StepSeenFromEnd(e: Engine, plans: seq<Plan>, s: Store)
    requires Usable(e, plans) && Ordered(plans) && plans != [] && Run(e, plans, s).Some?
    ensures var t := Run(e, plans, s).value; var op := e.resolve(plans[0], s).value;
            var next := Apply(s, op); var target := First(next, op.kind, op.filter);
            && target.Some? && Target(e, plans[0], t) == target
            && forall n :: Write(e, plans[0], n, t) == WriteAt(op, target, n)
  {
    var t, op := Run(e, plans, s).value, e.resolve(plans[0], s).value;
    OrderedTail(plans);
    StepEffect(e, plans, s);
    RunAgrees(e, plans, s, Reads(plans[0]));
    ApplyEffect(s, op);
    UsableTail(e, plans);
    RunKeeps(e, plans[1..], Apply(s, op));
    FirstStable(Apply(s, op), t, op.kind, op.filter);
  }

  /** Old nodes end as they were, overlaid by their writes; new ones contain their writes. */
  lemma {:induction false} RunWrites(e: Engine, plans: seq<Plan>, s: Store, n: nat)
    requires Usable(e, plans) && Ordered(plans) && Run(e, plans, s).Some?
    requires n < |Run(e, plans, s).value|
    ensures var t := Run(e, plans, s).value;
            && Submap(Writes(e, plans, n, t), t[n].attrs)
            && (n < |s| ==> t[n].attrs == s[n].attrs + Writes(e, plans, n, t))
    decreases plans
  {
    if plans == [] {
      assert n < |s| ==> s[n].attrs + map[] == s[n].attrs;
    } else {
      var t, op := Run(e, plans, s).value, e.resolve(plans[0], s).value;
      var next := Apply(s, op);
      UsableTail(e, plans);
      OrderedTail(plans);
      StepEffect(e, plans, s);
      StepSeenFromEnd(e, plans, s);
      RunWrites(e, plans[1..], next, n);
      NodeOverlay(s, op, t, n, Writes(e, plans[1..], n, t));
    }
  }

  /** One upsert followed by the later writes: old nodes are overlaid, a new node contains both. */
  lemma NodeOverlay(s: Store, op: Op, t: Store, n: nat, rest: Item)
    requires Keyed(op) && n < |t| && Submap(rest, t[n].attrs)
    requires n < |Apply(s, op)| ==> t[n].attrs == Apply(s, op)[n].attrs + rest
    ensures var next := Apply(s, op); var w := WriteAt(op, First(next, op.kind, op.filter), n);
            Submap(w + rest, t[n].attrs) && (n < |s| ==> t[n].attrs == s[n].attrs + (w + rest))
  {
    var next := Apply(s, op);
    var w := WriteAt(op, First(next, op.kind, op.filter), n);
    if n < |next| {
      ApplyWrites(s, op, n);
      OverlayContains(next[n].attrs, w, rest);
      if n < |s| { OverlayAssociates(s[n].attrs, w, rest); }
    } else {
      assert w == map[] && map[] + rest == rest;
      ApplyEffect(s, op);
    }
  }

  lemma OverlayContains(a: Item, w: Item, rest: Item)
    requires Submap(w, a)
    ensures Submap(w + rest, a + rest)
  {
  }

  lemma {:induction false} RunSettles(e: Engine, plans: seq<Plan>, s: Store)
    requires Usable(e, plans) && Ordered(plans) && Run(e, plans, s).Some?
    ensures Settled(e, plans, Run(e, plans, s).value)
    decreases plans
  {
    if plans != [] {
      UsableTail(e, plans);
      OrderedTail(plans);
      StepEffect(e, plans, s);
      StepSeenFromEnd(e, plans, s);
      RunSettles(e, plans[1..], Apply(s, e.resolve(plans[0], s).value));
      assert forall p :: p in plans ==> p == plans[0] || p in plans[1..];
    }
  }

  // ---- Replaying ----

  /** `x` is `t` except that each node still awaits the writes of the plans that remain. */
  predicate Awaiting(e: Engine, plans: seq<Plan>, x: Store, t: Store)
  {
    |x| == |t| && forall n :: 0 <= n < |t| ==>
      SameKey(t[n], x[n]) && x[n].attrs + Writes(e, plans, n, t) == t[n].attrs
  }

  lemma {:induction false} NoWritesToKind(e: Engine, plans: seq<Plan>, n: nat, t: Store)
    requires Usable(e, plans) && n < |t| && forall p :: p in plans ==> KindOf(p) != t[n].kind
    ensures Writes(e, plans, n, t) == map[]
  {
    if plans != [] {
      UsableTail(e, plans);
      assert plans[0] in plans && forall p :: p in plans[1..] ==> p in plans;
      NoWritesToKind(e, plans[1..], n, t);
    }
  }

  /** What a remaining plan reads is already final. */
  lemma AwaitingAgrees(e: Engine, plans: seq<Plan>, x: Store, t: Store)
    requires Usable(e, plans) && Ordered(plans) && plans != [] && Awaiting(e, plans, x, t)
    ensures Agree(t, x, Reads(plans[0]))
  {
    OrderedTail(plans);
    forall n | 0 <= n < |t| && t[n].kind in Reads(plans[0]) ensures x[n] == t[n] {
      NoWritesToKind(e, plans, n, t);
      assert SameKey(t[n], x[n]) && x[n].attrs + map[] == x[n].attrs;
    }
  }

  /** One replayed plan finds the node it found before and writes the same thing. */
  lemma ReplayFinds(e: Engine, plans: seq<Plan>, x: Store, t: Store)
    requires Usable(e, plans) && Ordered(plans) && plans != []
    requires Settled(e, plans, t) && Awaiting(e, plans, x, t)
    ensures var op := e.resolve(plans[0], x);
            op.Some? && Keyed(op.value) && First(x, op.value.kind, op.value.filter).Some?
            && forall n :: Write(e, plans[0], n, t) == WriteAt(op.value, First(x, op.value.kind, op.value.filter), n)
  {
    UsableTail(e, plans);
    AwaitingAgrees(e, plans, x, t);
    assert plans[0] in plans && Target(e, plans[0], t).Some?;
    var op := e.resolve(plans[0], x).value;
    FirstStable(t, x, op.kind, op.filter);
  }

  /** After one replayed plan, each node awaits the writes of the plans that remain. */
  lemma ReplayStep(e: Engine, plans: seq<Plan>, x: Store, t: Store)
    requires Usable(e, plans) && Ordered(plans) && plans != []
    requires Settled(e, plans, t) && Awaiting(e, plans, x, t)
    ensures var op := e.resolve(plans[0], x);
            op.Some? && First(x, op.value.kind, op.value.filter).Some?
            && Awaiting(e, plans[1..], Apply(x, op.value), t)
  {
    ReplayFinds(e, plans, x, t);
    var op := e.resolve(plans[0], x).value;
    ApplyEffect(x, op);
    var next := Apply(x, op);
    forall n | 0 <= n < |t| ensures SameKey(t[n], next[n]) && next[n].attrs + Writes(e, plans[1..], n, t) == t[n].attrs {
      assert SameKey(t[n], x[n]) && SameKey(x[n], next[n]);
      ApplyWrites(x, op, n);
      OverlayAssociates(x[n].attrs, Write(e, plans[0], n, t), Writes(e, plans[1..], n, t));
    }
  }

  /** Whether a plan is one of the device records the result counts. */
  predicate IsDevice(p: Plan) { p.ItemPlan? && p.section == Devices }

  /** How many device records created a node. */
  function DevicesCreated(e: Engine, plans: seq<Plan>, s: Store): nat
    decreases plans
  {
    if plans == [] then 0
    else
      var op := e.resolve(plans[0], s);
      if op.None? then 0
      else (if IsDevice(plans[0]) && First(s, op.value.kind, op.value.filter).None? then 1 else 0)
           + DevicesCreated(e, plans[1..], Apply(s, op.value))
  }

  /** Plans that are settled in `t` lead from any store that only awaits their writes to `t`, creating nothing. */
  lemma {:induction false} ReplayReaches(e: Engine, plans: seq<Plan>, x: Store, t: Store)
    requires Usable(e, plans) && Ordered(plans)
    requires Settled(e, plans, t) && Awaiting(e, plans, x, t)
    ensures Run(e, plans, x) == Some(t) && DevicesCreated(e, plans, x) == 0
    decreases plans
  {
    if plans == [] {
      forall n | 0 <= n < |t| ensures x[n] == t[n] {
        assert SameKey(t[n], x[n]) && x[n].attrs + map[] == x[n].attrs;
      }
      assert x == t;
    } else {
      UsableTail(e, plans);
      OrderedTail(plans);
      ReplayStep(e, plans, x, t);
      assert forall p :: p in plans[1..] ==> p in plans;
      ReplayReaches(e, plans[1..], Apply(x, e.resolve(plans[0], x).value), t);
    }
  }

  /** Two plan lists aim the same writes at every node. */
  ghost predicate SameWrites(e: Engine, plans: seq<Plan>, again: seq<Plan>, t: Store)
  {
    forall n :: 0 <= n < |t| ==> Writes(e, plans, n, t) == Writes(e, again, n, t)
  }

  /** A run from any store can be repeated: the second run finds every node and changes nothing. */
  lemma SecondRunIsFixedPoint(e: Engine, plans: seq<Plan>, again: seq<Plan>, s: Store)
    requires Usable(e, plans) && Ordered(plans) && Run(e, plans, s).Some?
    requires Usable(e, again) && Ordered(again) && forall p :: p in again ==> p in plans
    requires SameWrites(e, plans, again, Run(e, plans, s).value)
    ensures var t := Run(e, plans, s).value;
            Run(e, again, t) == Some(t) && DevicesCreated(e, again, t) == 0
  {
    var t := Run(e, plans, s).value;
    RunSettles(e, plans, s);
    forall n | 0 <= n < |t| ensures SameKey(t[n], t[n]) && t[n].attrs + Writes(e, again, n, t) == t[n].attrs {
      RunWrites(e, plans, s, n);
    }
    ReplayReaches(e, again, t, t);
  }
}
