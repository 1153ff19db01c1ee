/**
  `walk_exception_chain` and `first_exception_errno` of `src/ficelle/failures.py`: a breadth-first walk
  over an exception and what it wraps, on a finite graph that may have cycles.
 */
module ExceptionChain {
  import opened Json
  import opened Wrappers

  /** The identity of an exception. */
  type Id = nat

  /** `args` that are not exceptions are none. */
  datatype Exception = Exception(cause: Option<Id>, context: Option<Id>, args: seq<Option<Id>>, errno: Json)

  type Graph = map<Id, Exception>

  function Somes(xs: seq<Option<Id>>): seq<Id> {
    if xs == [] then [] else (if xs[0].Some? then [xs[0].value] else []) + Somes(xs[1..])
  }

  /** What an exception links to, in the order in which it is looked at. */
  function Links(e: Exception): seq<Id> {
    Somes([e.cause, e.context] + e.args)
  }

  /** The exception wraps the other one: as its cause, its context or one of its arguments. */
  predicate Wraps(e: Exception, m: Id) {
    e.cause == Some(m) || e.context == Some(m) || Some(m) in e.args
  }

  /** The cause comes first, then the context, then the arguments in their order. */
  lemma {:induction false} LinksExactly(e: Exception)
    ensures forall m :: m in Links(e) <==> Wraps(e, m)
    ensures e.cause.Some? ==> Links(e) != [] && Links(e)[0] == e.cause.value
    ensures e.context.Some? ==>
              var k := if e.cause.Some? then 1 else 0; |Links(e)| > k && Links(e)[k] == e.context.value
    ensures forall m :: Links(e.(args := e.args + [Some(m)])) == Links(e) + [m]
  {
    var all := [e.cause, e.context] + e.args;
    SomesMembers(all);
    assert all[1..] == [e.context] + e.args && ([e.context] + e.args)[1..] == e.args;
    forall m ensures Links(e.(args := e.args + [Some(m)])) == Links(e) + [m] {
      SomesSnoc(all, m);
      assert [e.cause, e.context] + (e.args + [Some(m)]) == all + [Some(m)];
    }
  }

  lemma {:induction false} SomesMembers(xs: seq<Option<Id>>)
    ensures forall m :: m in Somes(xs) <==> Some(m) in xs
    decreases |xs|
  {
    if xs != [] {
      SomesMembers(xs[1..]);
      assert xs == [xs[0]] + xs[1..];
    }
  }

  lemma {:induction false} SomesSnoc(xs: seq<Option<Id>>, m: Id)
    ensures Somes(xs + [Some(m)]) == Somes(xs) + [m]
    decreases |xs|
  {
    if xs == [] {
      assert [] + [Some(m)] == [Some(m)] && [Some(m)][1..] == [];
    } else {
      SomesSnoc(xs[1..], m);
      assert (xs + [Some(m)])[0] == xs[0] && (xs + [Some(m)])[1..] == xs[1..] + [Some(m)];
    }
  }

  /** Whatever an exception wraps is in the graph. */
  ghost predicate Closed(g: Graph) {
    forall n, m :: n in g && Wraps(g[n], m) ==> m in g
  }

  /** The exceptions at most `k` links away. */
  ghost function Within(g: Graph, root: Id, k: nat): set<Id> {
    if k == 0 then {root}
    else
      var near := Within(g, root, k - 1);
      near + set m | m in g && WrappedIn(g, near, m)
  }

  ghost predicate WrappedIn(g: Graph, near: set<Id>, m: Id) {
    exists n :: n in g && n in near && Wraps(g[n], m)
  }

  ghost predicate Reachable(g: Graph, root: Id, n: Id) {
    exists k: nat :: n in Within(g, root, k)
  }

  /** `a` is no further away than `b`. */
  ghost predicate NoFurther(g: Graph, root: Id, a: Id, b: Id) {
    forall k: nat :: b in Within(g, root, k) ==> a in Within(g, root, k)
  }

  /** Each exception once, nearest first. */
  ghost predicate NearestFirst(g: Graph, root: Id, order: seq<Id>) {
    forall i, j :: 0 <= i < j < |order| ==> order[i] != order[j] && NoFurther(g, root, order[i], order[j])
  }

  lemma {:induction false} WithinGrows(g: Graph, root: Id, k: nat, l: nat)
    requires k <= l
    ensures Within(g, root, k) <= Within(g, root, l)
    decreases l - k
  {
    if k < l {
      WithinGrows(g, root, k, l - 1);
    }
  }

  lemma {:induction false} WithinIsInGraph(g: Graph, root: Id, k: nat)
    requires Closed(g) && root in g
    ensures Within(g, root, k) <= g.Keys
  {
    if k > 0 {
      WithinIsInGraph(g, root, k - 1);
    }
  }

  lemma {:induction false} ClosedSetHoldsAll(g: Graph, root: Id, seen: set<Id>, k: nat)
    requires root in seen
    requires forall n, m :: n in seen && n in g && Wraps(g[n], m) ==> m in seen
    ensures Within(g, root, k) <= seen
  {
    if k > 0 {
      ClosedSetHoldsAll(g, root, seen, k - 1);
      var near := Within(g, root, k - 1);
      forall m | WrappedIn(g, near, m) ensures m in seen {
        var n :| n in g && n in near && Wraps(g[n], m);
      }
    }
  }

  // ---------------------------------------------------------------------------------------------
  // The walk, level by level
  // ---------------------------------------------------------------------------------------------

  /**
    What is pending belongs to two levels, first those at most `depth` links away and then those one
    link further: what is nearer has been seen, and links lead to what has been seen or is pending.
   */
  ghost predicate AtLevel(g: Graph, root: Id, order: seq<Id>, now: seq<Id>, later: seq<Id>, depth: nat) {
    && (depth > 0 ==> forall n :: n in Within(g, root, depth - 1) ==> n in order)
    && OnLevel(g, order, now, later, Within(g, root, depth), Within(g, root, depth + 1))
  }

  ghost predicate OnLevel(g: Graph, order: seq<Id>, now: seq<Id>, later: seq<Id>, here: set<Id>, next: set<Id>) {
    && (forall n :: n in order ==> n in g && n in here)
    && (forall n :: n in now ==> n in here)
    && (forall n :: n in later ==> n in next)
    && (forall n :: n in here ==> n in order || n in now)
    && LinksKnown(g, order, now, later)
  }

  ghost predicate LinksKnown(g: Graph, order: seq<Id>, now: seq<Id>, later: seq<Id>) {
    forall n, m :: n in order && n in g && m in Links(g[n]) ==> m in order || m in now || m in later
  }

  lemma {:induction false} NextLevel(g: Graph, root: Id, order: seq<Id>, later: seq<Id>, depth: nat)
    requires AtLevel(g, root, order, [], later, depth)
    ensures AtLevel(g, root, order, later, [], depth + 1)
  {
    WithinGrows(g, root, depth, depth + 1);
    forall n | n in Within(g, root, depth + 1) ensures n in order || n in later {
      if n !in Within(g, root, depth) {
        var a :| a in g && a in Within(g, root, depth) && Wraps(g[a], n);
        LinksExactly(g[a]);
        assert a in order;
      }
    }
  }

  lemma {:induction false} SkipSeen(g: Graph, order: seq<Id>, current: Id, now: seq<Id>, later: seq<Id>, here: set<Id>,
                                    next: set<Id>)
    requires OnLevel(g, order, [current] + now, later, here, next) && current in order
    ensures OnLevel(g, order, now, later, here, next)
  {
    assert forall n :: n in [current] + now <==> n == current || n in now;
  }

  lemma {:induction false} NoNearer(g: Graph, root: Id, order: seq<Id>, seen: Id, current: Id, depth: nat)
    requires depth > 0 ==> forall n :: n in Within(g, root, depth - 1) ==> n in order
    requires seen in Within(g, root, depth) && current !in order
    ensures NoFurther(g, root, seen, current)
  {
    forall k: nat | current in Within(g, root, k) ensures seen in Within(g, root, k) {
      if k < depth {
        WithinGrows(g, root, k, depth - 1);
      } else {
        WithinGrows(g, root, depth, k);
      }
    }
  }

  /** What is taken next is no nearer than anything taken before. */
  lemma {:induction false} TakenInOrder(g: Graph, root: Id, order: seq<Id>, current: Id, depth: nat)
    requires depth > 0 ==> forall n :: n in Within(g, root, depth - 1) ==> n in order
    requires forall n :: n in order ==> n in Within(g, root, depth)
    requires NearestFirst(g, root, order) && current !in order
    ensures NearestFirst(g, root, order + [current])
  {
    forall i | 0 <= i < |order| ensures order[i] != current && NoFurther(g, root, order[i], current) {
      NoNearer(g, root, order, order[i], current, depth);
    }
  }

  lemma {:induction false} LinksAreNext(g: Graph, root: Id, n: Id, depth: nat)
    requires Closed(g) && n in g && n in Within(g, root, depth)
    ensures forall m :: m in Links(g[n]) ==> m in Within(g, root, depth + 1)
  {
    LinksExactly(g[n]);
    forall m | m in Links(g[n]) ensures m in Within(g, root, depth + 1) {
      assert WrappedIn(g, Within(g, root, depth), m);
    }
  }

  lemma {:induction false} Expand(g: Graph, order: seq<Id>, current: Id, now: seq<Id>, later: seq<Id>, here: set<Id>,
                                  next: set<Id>)
    requires OnLevel(g, order, [current] + now, later, here, next) && current in g
    requires forall m :: m in Links(g[current]) ==> m in next
    ensures OnLevel(g, order + [current], now, later + Links(g[current]), here, next)
  {
    assert forall n :: n in [current] + now <==> n == current || n in now;
    assert ([current] + now)[0] == current;
    var links := Links(g[current]);
    assert forall n :: n in later + links <==> n in later || n in links;
    assert forall n :: n in order + [current] <==> n in order || n == current;
  }

  /** The walk in progress: something is pending on the current level, unless all is done. */
  ghost predicate Walking(g: Graph, root: Id, order: seq<Id>, pending: seq<Id>, level: Level) {
    && pending == level.now + level.later
    && AtLevel(g, root, order, level.now, level.later, level.depth)
    && NearestFirst(g, root, order)
  }

  datatype Level = Level(now: seq<Id>, later: seq<Id>, depth: nat)

  /** The level that the next pending exception belongs to. */
  lemma {:induction false} Settle(g: Graph, root: Id, order: seq<Id>, pending: seq<Id>, level: Level)
    returns (settled: Level)
    requires Walking(g, root, order, pending, level) && pending != []
    ensures Walking(g, root, order, pending, settled)
    ensures settled.now != [] && settled.now[0] == pending[0]
  {
    settled := level;
    if level.now == [] {
      NextLevel(g, root, order, level.later, level.depth);
      settled := Level(level.later, [], level.depth + 1);
      assert pending == level.later == settled.now + settled.later;
    } else {
      assert pending[0] == level.now[0];
    }
  }

  lemma {:induction false} Pop(pending: seq<Id>, now: seq<Id>, later: seq<Id>, links: seq<Id>)
    requires pending == now + later && now != []
    ensures pending[0] == now[0] && now == [now[0]] + now[1..] && now[0] in now
    ensures pending[1..] == now[1..] + later
    ensures pending[1..] + links == now[1..] + (later + links)
  {
  }

  lemma {:induction false} AdvanceSeen(g: Graph, root: Id, order: seq<Id>, pending: seq<Id>, level: Level)
    requires Walking(g, root, order, pending, level) && level.now != [] && pending[0] in order
    ensures Walking(g, root, order, pending[1..], level.(now := level.now[1..]))
  {
    var depth := level.depth;
    Pop(pending, level.now, level.later, []);
    SkipSeen(g, order, pending[0], level.now[1..], level.later, Within(g, root, depth), Within(g, root, depth + 1));
  }

  lemma {:induction false} AdvanceNew(g: Graph, root: Id, order: seq<Id>, pending: seq<Id>, level: Level)
    requires Closed(g) && Walking(g, root, order, pending, level) && level.now != []
    requires pending[0] in g && pending[0] !in order
    ensures Walking(g, root, order + [pending[0]], pending[1..] + Links(g[pending[0]]),
                    level.(now := level.now[1..], later := level.later + Links(g[pending[0]])))
  {
    var current, depth := pending[0], level.depth;
    Pop(pending, level.now, level.later, Links(g[current]));
    TakenInOrder(g, root, order, current, depth);
    LinksAreNext(g, root, current, depth);
    Expand(g, order, current, level.now[1..], level.later, Within(g, root, depth), Within(g, root, depth + 1));
  }

  /** One turn of the walk. */
  lemma {:induction false} Advance(g: Graph, root: Id, order: seq<Id>, pending: seq<Id>, level: Level)
    returns (next: Level)
    requires Closed(g) && root in g && pending != []
    requires Walking(g, root, order, pending, level)
    ensures pending[0] in g
    ensures pending[0] in order ==> Walking(g, root, order, pending[1..], next)
    ensures pending[0] !in order ==>
              Walking(g, root, order + [pending[0]], pending[1..] + Links(g[pending[0]]), next)
  {
    var settled := Settle(g, root, order, pending, level);
    Pop(pending, settled.now, settled.later, []);
    WithinIsInGraph(g, root, settled.depth);
    if pending[0] in order {
      AdvanceSeen(g, root, order, pending, settled);
      next := settled.(now := settled.now[1..]);
    } else {
      AdvanceNew(g, root, order, pending, settled);
      next := settled.(now := settled.now[1..], later := settled.later + Links(g[pending[0]]));
    }
  }

  lemma {:induction false} Start(g: Graph, root: Id)
    requires root in g
    ensures Walking(g, root, [], [root], Level([root], [], 0))
  {
    assert [root] + [] == [root];
  }

  method WalkExceptionChain(g: Graph, exc: Option<Id>) returns (order: seq<Id>)
    requires Closed(g) && (exc.Some? ==> exc.value in g)
    ensures exc.None? ==> order == []
    ensures exc.Some? ==> forall n :: n in order <==> Reachable(g, exc.value, n)
    ensures exc.Some? ==> NearestFirst(g, exc.value, order)
    ensures forall n :: n in order ==> n in g
  {
    order := [];
    if exc.None? {
      return;
    }
    var root := exc.value;
    var pending, seen: set<Id> := [root], {};
    ghost var level := Level([root], [], 0);
    Start(g, root);
    while pending != []
      invariant Walking(g, root, order, pending, level)
      invariant seen <= g.Keys && forall n :: n in seen <==> n in order
      decreases g.Keys - seen, |pending|
    {
      var current := pending[0];
      level := Advance(g, root, order, pending, level);
      if current in seen {
        pending := pending[1..];
      } else {
        pending := pending[1..] + Links(g[current]);
        seen := seen + {current};
        order := order + [current];
      }
    }
    AllIsSeen(g, root, order, level.depth);
  }

  lemma {:induction false} AllIsSeen(g: Graph, root: Id, order: seq<Id>, depth: nat)
    requires AtLevel(g, root, order, [], [], depth)
    ensures forall n :: n in order <==> Reachable(g, root, n)
  {
    var seen := set n | n in order;
    WithinGrows(g, root, 0, depth);
    assert root in Within(g, root, 0);
    forall n, m | n in seen && n in g && Wraps(g[n], m) ensures m in seen {
      LinksExactly(g[n]);
    }
    forall n | Reachable(g, root, n) ensures n in order {
      var k: nat :| n in Within(g, root, k);
      ClosedSetHoldsAll(g, root, seen, k);
    }
  }

  // ---------------------------------------------------------------------------------------------
  // first_exception_errno
  // ---------------------------------------------------------------------------------------------

  predicate HasErrno(e: Exception) {
    e.errno.Int? && e.errno.n != 0
  }

  /** The exception has this errno. */
  predicate Carries(e: Exception, errno: int) {
    e.errno == Int(errno) && errno != 0
  }

  /** It is carried by an exception that is reached, and by none that is nearer. */
  ghost predicate IsNearestErrno(g: Graph, root: Id, errno: int, n: Id) {
    && n in g && Reachable(g, root, n) && Carries(g[n], errno)
    && forall m, other :: m in g && Reachable(g, root, m) && Carries(g[m], other) ==> NoFurther(g, root, n, m)
  }

  method FirstExceptionErrno(g: Graph, exc: Option<Id>) returns (errno: Option<int>)
    requires Closed(g) && (exc.Some? ==> exc.value in g)
    ensures errno.None? <==>
            exc.None? || forall n, other :: n in g && Reachable(g, exc.value, n) ==> !Carries(g[n], other)
    ensures errno.Some? ==> exc.Some? && exists n :: IsNearestErrno(g, exc.value, errno.value, n)
  {
    var order := WalkExceptionChain(g, exc);
    var i := 0;
    while i < |order|
      invariant 0 <= i <= |order|
      invariant forall j :: 0 <= j < i ==> !HasErrno(g[order[j]])
    {
      var candidate := g[order[i]];
      if HasErrno(candidate) {
        NearestIsFirst(g, exc.value, order, i);
        return Some(candidate.errno.n);
      }
      i := i + 1;
    }
    return None;
  }

  lemma {:induction false} NearestIsFirst(g: Graph, root: Id, order: seq<Id>, i: nat)
    requires i < |order| && NearestFirst(g, root, order)
    requires forall n :: n in order <==> Reachable(g, root, n)
    requires forall n :: n in order ==> n in g
    requires HasErrno(g[order[i]]) && forall j :: 0 <= j < i ==> !HasErrno(g[order[j]])
    ensures IsNearestErrno(g, root, g[order[i]].errno.n, order[i])
  {
    assert order[i] in order;
    forall m, other | m in g && Reachable(g, root, m) && Carries(g[m], other) ensures NoFurther(g, root, order[i], m) {
      assert m in order;
      var j :| 0 <= j < |order| && order[j] == m;
    }
  }
}
