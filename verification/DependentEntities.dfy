/**
 The breadth-first search for the classes that deleting an entity may cascade to.
 */
module DependentEntities {

  datatype OnDelete = Cascade | SetNull | Restrict | OtherAction

  /** A column that refers to a column of the target class. */
  datatype Constraint = Constraint(column: string, target: string, targetColumn: string, action: OnDelete)

  /** Every class with its constraints, in the order of the PHP array. */
  datatype Table = Table(name: string, constraints: seq<Constraint>)

  type Relations = seq<Table>

  predicate Cascades(k: Constraint, target: string) {
    k.target == target && k.action == Cascade
  }

  function Hits(name: string, constraints: seq<Constraint>, target: string): seq<string> {
    if constraints == [] then []
    else
      var last := |constraints| - 1;
      Hits(name, constraints[..last], target) + (if Cascades(constraints[last], target) then [name] else [])
  }

  /** The classes pushed for a class: one entry per CASCADE constraint on it. */
  function Children(rel: Relations, target: string): seq<string> {
    if rel == [] then []
    else
      var last := |rel| - 1;
      Children(rel[..last], target) + Hits(rel[last].name, rel[last].constraints, target)
  }

  ghost predicate Edge(rel: Relations, from: string, to: string) {
    to in Children(rel, from)
  }

  function Names(rel: Relations): set<string> {
    set t | t in rel :: t.name
  }

  lemma {:induction false} HitsAreName(name: string, constraints: seq<Constraint>, target: string)
    ensures forall c :: c in Hits(name, constraints, target) ==> c == name
  {
    if constraints != [] {
      HitsAreName(name, constraints[..|constraints| - 1], target);
    }
  }

  lemma {:induction false} ChildrenNamed(rel: Relations, target: string)
    ensures forall c :: c in Children(rel, target) ==> c in Names(rel)
  {
    if rel != [] {
      var last := |rel| - 1;
      ChildrenNamed(rel[..last], target);
      HitsAreName(rel[last].name, rel[last].constraints, target);
      assert forall t :: t in rel[..last] ==> t in rel;
    }
  }

  lemma {:induction false} HitIff(name: string, constraints: seq<Constraint>, target: string)
    ensures name in Hits(name, constraints, target) <==>
              exists k :: k in constraints && k.target == target && k.action == Cascade
  {
    if constraints != [] {
      var init, last := constraints[..|constraints| - 1], constraints[|constraints| - 1];
      HitIff(name, init, target);
      assert forall k :: k in constraints <==> k in init || k == last;
    }
  }

  ghost predicate HasCascade(t: Table, to: string, from: string) {
    t.name == to && exists k :: k in t.constraints && k.target == from && k.action == Cascade
  }

  lemma HitsIffCascade(t: Table, to: string, from: string)
    ensures to in Hits(t.name, t.constraints, from) <==> HasCascade(t, to, from)
  {
    HitsAreName(t.name, t.constraints, from);
    HitIff(t.name, t.constraints, from);
  }

  /** There is an edge exactly if some CASCADE constraint of the dependent class refers to the other. */
  lemma {:induction false} EdgeIffCascade(rel: Relations, from: string, to: string)
    ensures Edge(rel, from, to) <==> exists t :: t in rel && HasCascade(t, to, from)
  {
    if rel != [] {
      var init, last := rel[..|rel| - 1], rel[|rel| - 1];
      EdgeIffCascade(init, from, to);
      HitsIffCascade(last, to, from);
      assert forall t :: t in rel <==> t in init || t == last;
    }
  }

  // ----- distance

  /** At most n CASCADE steps lead from the root to class c. */
  ghost predicate Within(rel: Relations, root: string, n: nat, c: string)
    decreases n, 0
  {
    if n == 0 then c == root
    else Within(rel, root, n - 1, c) || OneFurther(rel, root, n - 1, c)
  }

  ghost predicate OneFurther(rel: Relations, root: string, n: nat, c: string)
    decreases n, 1
  {
    exists p :: Within(rel, root, n, p) && Edge(rel, p, c)
  }

  ghost predicate Reachable(rel: Relations, root: string, c: string) {
    exists n: nat :: Within(rel, root, n, c)
  }

  lemma {:induction false} WithinGrows(rel: Relations, root: string, n: nat, m: nat, c: string)
    requires n <= m && Within(rel, root, n, c)
    ensures Within(rel, root, m, c)
    decreases m
  {
    if n < m {
      WithinGrows(rel, root, n, m - 1, c);
    }
  }

  lemma ChildWithin(rel: Relations, root: string, n: nat, p: string, c: string)
    requires Within(rel, root, n, p) && Edge(rel, p, c)
    ensures Within(rel, root, n + 1, c)
  {
    assert OneFurther(rel, root, n, c);
  }

  lemma {:induction false} Fixpoint(rel: Relations, root: string, n: nat, m: nat, c: string)
    requires forall p, d :: Within(rel, root, n, p) && Edge(rel, p, d) ==> Within(rel, root, n, d)
    requires n <= m && Within(rel, root, m, c)
    ensures Within(rel, root, n, c)
    decreases m
  {
    if n < m {
      if Within(rel, root, m - 1, c) {
        Fixpoint(rel, root, n, m - 1, c);
      } else {
        var p :| Within(rel, root, m - 1, p) && Edge(rel, p, c);
        Fixpoint(rel, root, n, m - 1, p);
      }
    }
  }

  // ----- the search

  predicate Distinct(s: seq<string>) {
    forall i, j :: 0 <= i < j < |s| ==> s[i] != s[j]
  }

  /** Whenever a listed class is within n steps, so are all classes listed before it. */
  ghost predicate NearestFirst(rel: Relations, root: string, result: seq<string>) {
    forall i, j, n: nat :: 0 <= i < j < |result| && Within(rel, root, n, result[j]) ==> Within(rel, root, n, result[i])
  }

  /** Exactly the classes reachable from the root, without the root: each once, the nearest first. */
  ghost predicate ListsDependents(rel: Relations, root: string, result: seq<string>) {
    && Distinct(result)
    && (forall c :: c in result <==> c != root && Reachable(rel, root, c))
    && NearestFirst(rel, root, result)
  }

  /**
   The state between two passes: cur is the part of the queue at distance n, next what lies beyond.
   */
  ghost predicate Searching(rel: Relations, root: string, n: nat, cur: seq<string>, next: seq<string>,
                            result: seq<string>, started: bool) {
    && Distinct(result) && root !in result && NearestFirst(rel, root, result)
    && (forall c :: c in result ==> Within(rel, root, n, c))
    && (forall c :: c in cur ==> Within(rel, root, n, c))
    && (forall c :: c in next ==> Within(rel, root, n + 1, c))
    && (forall c :: Within(rel, root, n, c) ==> c == root || c in result || c in cur)
    && (n > 0 ==> forall c :: Within(rel, root, n - 1, c) ==> c == root || c in result)
    && (started || (n == 0 && cur == [root] && next == [] && result == []))
    && (forall p, c :: (p in result || (p == root && started)) && Edge(rel, p, c) ==>
        c == root || c in result || c in cur || c in next)
  }

  lemma RootWithin(rel: Relations, root: string, n: nat)
    ensures Within(rel, root, n, root)
  {
    WithinGrows(rel, root, 0, n, root);
  }

  /** The next level begins. */
  lemma NextLevel(rel: Relations, root: string, n: nat, next: seq<string>, result: seq<string>)
    requires Searching(rel, root, n, [], next, result, true)
    ensures Searching(rel, root, n + 1, next, [], result, true)
  {
    forall c | Within(rel, root, n, c) ensures Within(rel, root, n + 1, c) {
      WithinGrows(rel, root, n, n + 1, c);
    }
    forall c | Within(rel, root, n + 1, c) ensures c == root || c in result || c in next {
      if !Within(rel, root, n, c) {
        assert OneFurther(rel, root, n, c);
      }
    }
  }

  /** A class that is listed already is skipped. */
  lemma SkipListed(rel: Relations, root: string, n: nat, cur: seq<string>, next: seq<string>, result: seq<string>)
    requires cur != [] && cur[0] in result && Searching(rel, root, n, cur, next, result, true)
    ensures Searching(rel, root, n, cur[1..], next, result, true)
  {
    assert cur == [cur[0]] + cur[1..];
  }

  /** The root is expanded, again if it turns up again, but never listed. */
  lemma ExpandRoot(rel: Relations, root: string, n: nat, cur: seq<string>, next: seq<string>, result: seq<string>,
                   started: bool)
    requires cur != [] && cur[0] == root && Searching(rel, root, n, cur, next, result, started)
    ensures Searching(rel, root, n, cur[1..], next + Children(rel, root), result, true)
  {
    assert cur == [cur[0]] + cur[1..];
    RootWithin(rel, root, n);
    forall c | c in Children(rel, root) ensures Within(rel, root, n + 1, c) {
      ChildWithin(rel, root, n, root, c);
    }
  }

  /** What is within n steps is at least as near as what is not within n - 1. */
  lemma AtLeastAsNear(rel: Relations, root: string, n: nat, x: string, c: string, m: nat)
    requires Within(rel, root, n, x) && (n > 0 ==> !Within(rel, root, n - 1, c)) && Within(rel, root, m, c)
    ensures Within(rel, root, m, x)
  {
    if m < n {
      WithinGrows(rel, root, m, n - 1, c);
    } else {
      WithinGrows(rel, root, n, m, x);
    }
  }

  lemma AppendNearest(rel: Relations, root: string, n: nat, result: seq<string>, c: string)
    requires NearestFirst(rel, root, result)
    requires forall x :: x in result ==> Within(rel, root, n, x)
    requires n > 0 ==> !Within(rel, root, n - 1, c)
    ensures NearestFirst(rel, root, result + [c])
  {
    var r := result + [c];
    forall i, j, m: nat | 0 <= i < j < |r| && Within(rel, root, m, r[j]) ensures Within(rel, root, m, r[i]) {
      assert r[i] == result[i];
      if j == |result| {
        AtLeastAsNear(rel, root, n, r[i], c, m);
      } else {
        assert r[j] == result[j];
      }
    }
  }

  /** A class met for the first time is listed and expanded. */
  lemma ListAndExpand(rel: Relations, root: string, n: nat, cur: seq<string>, next: seq<string>, result: seq<string>)
    requires cur != [] && cur[0] != root && cur[0] !in result && Searching(rel, root, n, cur, next, result, true)
    ensures Searching(rel, root, n, cur[1..], next + Children(rel, cur[0]), result + [cur[0]], true)
  {
    var c := cur[0];
    assert cur == [c] + cur[1..];
    AppendNearest(rel, root, n, result, c);
    forall d | d in Children(rel, c) ensures Within(rel, root, n + 1, d) {
      ChildWithin(rel, root, n, c, d);
    }
  }

  /** When the queue is empty, exactly the reachable classes other than the root have been listed. */
  lemma SearchDone(rel: Relations, root: string, n: nat, result: seq<string>)
    requires Searching(rel, root, n, [], [], result, true)
    ensures forall c :: c in result <==> c != root && Reachable(rel, root, c)
  {
    RootWithin(rel, root, n);
    forall c | c != root && Reachable(rel, root, c) ensures c in result {
      var m: nat :| Within(rel, root, m, c);
      if m <= n {
        WithinGrows(rel, root, m, n, c);
      } else {
        Fixpoint(rel, root, n, m, c);
      }
    }
    forall c | c in result ensures c != root && Reachable(rel, root, c) {
      assert Within(rel, root, n, c);
    }
  }

  method PushChildren(queue: seq<string>, rel: Relations, currentEntity: string) returns (queue': seq<string>)
    ensures queue' == queue + Children(rel, currentEntity)
  {
    queue' := queue;
    var i := 0;
    while i < |rel|
      invariant 0 <= i <= |rel| && queue' == queue + Children(rel[..i], currentEntity)
    {
      var nextEntity, related := rel[i].name, rel[i].constraints;
      assert rel[..i + 1][..i] == rel[..i];
      var k := 0;
      while k < |related|
        invariant 0 <= k <= |related|
        invariant queue' == queue + Children(rel[..i], currentEntity) + Hits(nextEntity, related[..k], currentEntity)
      {
        assert related[..k + 1][..k] == related[..k];
        if related[k].target == currentEntity && related[k].action == Cascade {
          queue' := queue' + [nextEntity];
        }
        k := k + 1;
      }
      assert related[..k] == related;
      i := i + 1;
    }
    assert rel[..i] == rel;
  }

  // ----- termination: lexicographically, the classes not listed, the roots queued, and the queue

  ghost function Unlisted(rel: Relations, result: seq<string>): set<string> {
    Names(rel) - (set c | c in result)
  }

  ghost function RootsQueued(root: string, queue: seq<string>): nat {
    multiset(queue)[root]
  }

  ghost predicate Named(rel: Relations, root: string, queue: seq<string>) {
    forall c :: c in queue ==> c == root || c in Names(rel)
  }

  lemma ListingShrinks(rel: Relations, result: seq<string>, c: string)
    requires c in Names(rel) && c !in result
    ensures Unlisted(rel, result + [c]) < Unlisted(rel, result)
  {
    assert c in Unlisted(rel, result);
    assert c !in Unlisted(rel, result + [c]);
  }

  lemma RootsAfter(rel: Relations, root: string, queue: seq<string>, pushed: seq<string>)
    requires queue != [] && root !in pushed
    ensures RootsQueued(root, queue[1..] + pushed) == RootsQueued(root, queue) - (if queue[0] == root then 1 else 0)
  {
    assert queue == [queue[0]] + queue[1..];
    assert multiset(queue) == multiset{queue[0]} + multiset(queue[1..]);
    assert multiset(queue[1..] + pushed) == multiset(queue[1..]) + multiset(pushed);
  }

  /** One pass of the search: the first entry of the queue is skipped, or listed and expanded. */
  function Pass(rel: Relations, root: string, queue: seq<string>, result: seq<string>): (seq<string>, seq<string>)
    requires queue != []
  {
    var c := queue[0];
    if c in result then (queue[1..], result)
    else (queue[1..] + Children(rel, c), if c == root then result else result + [c])
  }

  /** Each pass makes the measure smaller, unless the root refers to itself. */
  lemma PassShrinks(rel: Relations, root: string, queue: seq<string>, result: seq<string>)
    requires queue != [] && Named(rel, root, queue) && !Edge(rel, root, root)
    ensures var (queue', result') := Pass(rel, root, queue, result);
            && Named(rel, root, queue')
            && (|| Unlisted(rel, result') < Unlisted(rel, result)
                || (result' == result && RootsQueued(root, queue') < RootsQueued(root, queue))
                || (result' == result && RootsQueued(root, queue') == RootsQueued(root, queue) && |queue'| < |queue|))
  {
    var c := queue[0];
    assert forall x :: x in queue[1..] ==> x in queue;
    ChildrenNamed(rel, c);
    if c in result {
      RootsAfter(rel, root, queue, []);
      assert queue[1..] + [] == queue[1..];
    } else if c == root {
      RootsAfter(rel, root, queue, Children(rel, root));
    } else {
      ListingShrinks(rel, result, c);
    }
  }

  ghost predicate SearchingFor(rel: Relations, root: string, queue: seq<string>, result: seq<string>, n: nat,
                               cur: seq<string>, next: seq<string>, started: bool) {
    && queue == cur + next && (cur == [] ==> next == []) && (queue == [] ==> started)
    && Searching(rel, root, n, cur, next, result, started)
  }

  lemma Consume(rel: Relations, root: string, queue: seq<string>, result: seq<string>, n: nat, cur: seq<string>,
                next: seq<string>, started: bool)
    returns (next': seq<string>)
    requires queue != [] && SearchingFor(rel, root, queue, result, n, cur, next, started)
    ensures var (queue', result') := Pass(rel, root, queue, result);
            queue' == cur[1..] + next' && Searching(rel, root, n, cur[1..], next', result', true)
  {
    var c := queue[0];
    assert cur != [] && c == cur[0];
    assert queue[1..] == cur[1..] + next;
    if c in result {
      SkipListed(rel, root, n, cur, next, result);
      next' := next;
    } else {
      next' := next + Children(rel, c);
      assert (cur[1..] + next) + Children(rel, c) == cur[1..] + next';
      if c == root {
        ExpandRoot(rel, root, n, cur, next, result, started);
      } else {
        ListAndExpand(rel, root, n, cur, next, result);
      }
    }
  }

  lemma PassKeepsSearching(rel: Relations, root: string, queue: seq<string>, result: seq<string>, n: nat,
                           cur: seq<string>, next: seq<string>, started: bool)
    returns (n': nat, cur': seq<string>, next': seq<string>)
    requires queue != [] && SearchingFor(rel, root, queue, result, n, cur, next, started)
    ensures SearchingFor(rel, root, Pass(rel, root, queue, result).0, Pass(rel, root, queue, result).1, n', cur', next',
              true)
  {
    next' := Consume(rel, root, queue, result, n, cur, next, started);
    n', cur' := n, cur[1..];
    if cur' == [] {
      NextLevel(rel, root, n, next', Pass(rel, root, queue, result).1);
      assert [] + next' == next' && next' + [] == next';
      n', cur', next' := n + 1, next', [];
    }
  }

  /**
   The classes that deleting an entity of class root may cascade to: without duplicates, nearest first.
   */
  method GetDependentEntities(root: string, rel: Relations) returns (result: seq<string>)
    requires !Edge(rel, root, root)
    ensures ListsDependents(rel, root, result)
  {
    result := [];
    var queue := [root];
    ghost var n: nat, cur: seq<string>, next: seq<string>, started := 0, [root], [], false;
    while |queue| > 0
      invariant SearchingFor(rel, root, queue, result, n, cur, next, started) && Named(rel, root, queue)
      decreases Unlisted(rel, result), RootsQueued(root, queue), |queue|
    {
      ghost var pass := Pass(rel, root, queue, result);
      PassShrinks(rel, root, queue, result);
      n, cur, next := PassKeepsSearching(rel, root, queue, result, n, cur, next, started);
      started := true;
      var currentEntity := queue[0];
      queue := queue[1..];
      if currentEntity in result {
        assert (queue, result) == pass;
        continue;
      }
      if currentEntity != root {
        result := result + [currentEntity];
      }
      queue := PushChildren(queue, rel, currentEntity);
      assert (queue, result) == pass;
    }
    SearchDone(rel, root, n, result);
  }

  // ----- when the search ends

  function Search(rel: Relations, root: string, queue: seq<string>, result: seq<string>,
                  passes: nat): (seq<string>, seq<string>)
    decreases passes
  {
    if passes == 0 || queue == [] then (queue, result)
    else
      var (queue', result') := Pass(rel, root, queue, result);
      Search(rel, root, queue', result', passes - 1)
  }

  lemma {:induction false} SearchEnds(rel: Relations, root: string, queue: seq<string>, result: seq<string>)
    returns (passes: nat)
    requires !Edge(rel, root, root) && Named(rel, root, queue)
    ensures Search(rel, root, queue, result, passes).0 == []
    decreases Unlisted(rel, result), RootsQueued(root, queue), |queue|
  {
    if queue == [] {
      passes := 0;
    } else {
      PassShrinks(rel, root, queue, result);
      var (queue', result') := Pass(rel, root, queue, result);
      var k := SearchEnds(rel, root, queue', result');
      passes := k + 1;
    }
  }

  lemma {:induction false} SearchGoesOn(rel: Relations, root: string, queue: seq<string>, result: seq<string>,
                                        passes: nat)
    requires Edge(rel, root, root) && root in queue && root !in result
    ensures Search(rel, root, queue, result, passes).0 != []
    decreases passes
  {
    if passes > 0 {
      assert queue == [queue[0]] + queue[1..];
      var (queue', result') := Pass(rel, root, queue, result);
      SearchGoesOn(rel, root, queue', result', passes - 1);
    }
  }

  /**
   The search ends exactly if no CASCADE constraint of the root class refers to the root class
   itself. Longer cycles through the root do no harm, although the root is never listed.
   */
  lemma EndsIffNoSelfCascade(rel: Relations, root: string)
    ensures (exists passes: nat :: Search(rel, root, [root], [], passes).0 == []) <==> !Edge(rel, root, root)
  {
    if Edge(rel, root, root) {
      forall passes: nat ensures Search(rel, root, [root], [], passes).0 != [] {
        SearchGoesOn(rel, root, [root], [], passes);
      }
    } else {
      var passes := SearchEnds(rel, root, [root], []);
    }
  }
}
