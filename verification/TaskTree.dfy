/** Taking a tree of tasks offline or bringing it online: requests go down the tree and completions come back
    through a counter per task (libs/apr-toolkit/src/apt_task.c).  The two kinds of requests use the same protocol
    over separate counters; this module is about one kind. */
module TaskTree {
  import opened Common

  /** A tree of tasks numbered from the root, parents first; parent[0] is not used.  A task that does not accept
      messages is passed over. */
  datatype Tree = Tree(parent: seq<nat>, accepts: seq<bool>)
  {
    ghost predicate Valid() {
      && |parent| == |accepts| && |parent| > 0
      && forall c :: 0 < c < |parent| ==> parent[c] < c
    }

    /** c is a child of t that receives its requests. */
    predicate Kid(c: nat, t: nat)
      requires Valid() && c < |parent|
    {
      c > 0 && parent[c] == t && accepts[c]
    }

    /** Requests reach t: every task on the way from the root accepts messages. */
    predicate Reached(t: nat)
      requires Valid() && t < |parent|
    {
      t == 0 || (accepts[t] && Reached(parent[t]))
    }
  }

  /** The messages in the mailboxes, the counters, and what has happened so far: whether a task has processed its
      request, whether it has raised completion, in which order, and the number of messages handled. */
  datatype State = State(requests: seq<nat>, completes: seq<nat>, pending: seq<nat>,
                         processed: seq<bool>, raised: seq<bool>, order: seq<nat>, handled: nat)

  predicate Fits(tree: Tree, s: State) {
    |s.requests| == |s.completes| == |s.pending| == |s.processed| == |s.raised| == |tree.parent|
  }

  function Zeros(n: nat): (z: seq<nat>)
    ensures |z| == n && forall i :: 0 <= i < n ==> z[i] == 0
  {
    seq(n, _ => 0)
  }

  function Falses(n: nat): (z: seq<bool>)
    ensures |z| == n && forall i :: 0 <= i < n ==> !z[i]
  {
    seq(n, _ => false)
  }

  /** An idle tree whose root has just been sent the request. */
  function Start(tree: Tree): State
    requires tree.Valid()
  {
    var n := |tree.parent|;
    State(Zeros(n)[0 := 1], Zeros(n), Zeros(n), Falses(n), Falses(n), [], 0)
  }

  /** A completed task tells its parent. */
  function Raise(tree: Tree, s: State, t: nat): State
    requires tree.Valid() && Fits(tree, s) && t < |tree.parent|
  {
    s.(raised := s.raised[t := true], order := s.order + [t],
       completes := if t == 0 then s.completes else s.completes[tree.parent[t] := s.completes[tree.parent[t]] + 1])
  }

  /** Requests for the children of t below n. */
  function Sent(tree: Tree, requests: seq<nat>, t: nat, n: nat): (r: seq<nat>)
    requires tree.Valid() && |requests| == |tree.parent| && n <= |requests|
    ensures |r| == |requests|
    ensures forall c :: 0 <= c < |r| ==> r[c] == requests[c] + if c < n && tree.Kid(c, t) then 1 else 0
  {
    seq(|requests|, c requires 0 <= c < |requests| => requests[c] + if c < n && tree.Kid(c, t) then 1 else 0)
  }

  /** Number of children of t below n. */
  function Kids(tree: Tree, t: nat, n: nat): nat
    requires tree.Valid() && n <= |tree.parent|
  {
    if n == 0 then 0 else Kids(tree, t, n - 1) + if tree.Kid(n - 1, t) then 1 else 0
  }

  lemma SentNone(tree: Tree, requests: seq<nat>, t: nat)
    requires tree.Valid() && |requests| == |tree.parent|
    ensures Sent(tree, requests, t, 1) == requests && Kids(tree, t, 1) == 0
  {
    assert Kids(tree, t, 1) == Kids(tree, t, 0);
  }

  lemma SentNext(tree: Tree, requests: seq<nat>, t: nat, c: nat)
    requires tree.Valid() && |requests| == |tree.parent| && 0 < c < |requests|
    ensures var r := Sent(tree, requests, t, c);
            Sent(tree, requests, t, c + 1) == if tree.parent[c] == t && tree.accepts[c] then r[c := r[c] + 1] else r
    ensures Kids(tree, t, c + 1) == Kids(tree, t, c) + if tree.parent[c] == t && tree.accepts[c] then 1 else 0
  {
  }

  /** Task t passes the request on to its children. */
  function Requested(tree: Tree, s: State, t: nat): State
    requires tree.Valid() && Fits(tree, s) && t < |tree.parent| && s.requests[t] > 0
  {
    var n := |tree.parent|;
    s.(requests := Sent(tree, s.requests[t := s.requests[t] - 1], t, n),
       pending := s.pending[t := s.pending[t] + Kids(tree, t, n)],
       processed := s.processed[t := true], handled := s.handled + 1)
  }

  /** Task t handles its request. */
  function Process(tree: Tree, s: State, t: nat): State
    requires tree.Valid() && Fits(tree, s) && t < |tree.parent| && s.requests[t] > 0
  {
    var s' := Requested(tree, s, t);
    if s'.pending[t] == 0 then Raise(tree, s', t) else s'
  }

  /** Task t handles a completion of one of its children. */
  function Complete(tree: Tree, s: State, t: nat): State
    requires tree.Valid() && Fits(tree, s) && t < |tree.parent| && s.completes[t] > 0
  {
    var s' := s.(completes := s.completes[t := s.completes[t] - 1], handled := s.handled + 1);
    if s.pending[t] == 0 then s'
    else
      var s'' := s'.(pending := s.pending[t := s.pending[t] - 1]);
      if s''.pending[t] == 0 then Raise(tree, s'', t) else s''
  }

  /** Which message is handled next. */
  datatype Event = RequestAt(task: nat) | CompletionAt(task: nat)

  predicate Enabled(s: State, e: Event) {
    match e
    case RequestAt(t) => t < |s.requests| && s.requests[t] > 0
    case CompletionAt(t) => t < |s.completes| && s.completes[t] > 0
  }

  /** A message that is not there changes nothing. */
  function Step(tree: Tree, s: State, e: Event): (s': State)
    requires tree.Valid() && Fits(tree, s)
    ensures Fits(tree, s')
  {
    if !Enabled(s, e) then s
    else
      match e
      case RequestAt(t) => Process(tree, s, t)
      case CompletionAt(t) => Complete(tree, s, t)
  }

  function Run(tree: Tree, s: State, events: seq<Event>): (s': State)
    requires tree.Valid() && Fits(tree, s)
    ensures Fits(tree, s')
    decreases |events|
  {
    if events == [] then s else Run(tree, Step(tree, s, events[0]), events[1..])
  }

  /** No message is left. */
  predicate Quiet(s: State) {
    (forall t :: 0 <= t < |s.requests| ==> s.requests[t] == 0) && (forall t :: 0 <= t < |s.completes| ==> s.completes[t] == 0)
  }

  // ----- the invariant -----

  /** Children of t below n that have not raised completion. */
  function Open(tree: Tree, raised: seq<bool>, t: nat, n: nat): nat
    requires tree.Valid() && n <= |tree.parent| == |raised|
  {
    if n == 0 then 0 else Open(tree, raised, t, n - 1) + if tree.Kid(n - 1, t) && !raised[n - 1] then 1 else 0
  }

  /** Task t has been sent the request. */
  predicate Issued(tree: Tree, s: State, t: nat)
    requires tree.Valid() && Fits(tree, s) && t < |tree.parent|
  {
    t == 0 || (tree.accepts[t] && s.processed[tree.parent[t]])
  }

  /** The counter of a task accounts for exactly its children. */
  predicate Accounted(tree: Tree, s: State, t: nat)
    requires tree.Valid() && Fits(tree, s) && t < |tree.parent|
  {
    && s.requests[t] == (if Issued(tree, s, t) && !s.processed[t] then 1 else 0)
    && (s.processed[t] ==> Issued(tree, s, t))
    && s.pending[t] == (if s.processed[t] then Open(tree, s.raised, t, |tree.parent|) + s.completes[t] else 0)
    && (!s.processed[t] ==> s.completes[t] == 0)
    && (s.raised[t] <==> s.processed[t] && s.pending[t] == 0)
  }

  /** Tasks have raised completion once each, after their children. */
  predicate InOrder(tree: Tree, s: State)
    requires tree.Valid() && Fits(tree, s)
  {
    && (forall i :: 0 <= i < |s.order| ==> s.order[i] < |tree.parent|)
    && (forall t :: 0 <= t < |tree.parent| ==> (s.raised[t] <==> t in s.order))
    && (forall i, j :: 0 <= i < j < |s.order| ==> s.order[i] != s.order[j])
    && (forall i, c :: 0 <= i < |s.order| && 0 <= c < |tree.parent| && tree.Kid(c, s.order[i]) ==> c in s.order[..i])
  }

  /** Messages handled by the tasks below n. */
  function Work(tree: Tree, s: State, n: nat): int
    requires tree.Valid() && Fits(tree, s) && n <= |tree.parent|
  {
    if n == 0 then 0 else Work(tree, s, n - 1) + WorkOf(tree, s, n - 1)
  }

  /** A task handles its request and one message per child that it has accounted for. */
  function WorkOf(tree: Tree, s: State, t: nat): int
    requires tree.Valid() && Fits(tree, s) && t < |tree.parent|
  {
    if s.processed[t] then 1 + Kids(tree, t, |tree.parent|) - s.pending[t] else 0
  }

  predicate Inv(tree: Tree, s: State)
    requires tree.Valid()
  {
    && Fits(tree, s)
    && (forall t :: 0 <= t < |tree.parent| ==> Accounted(tree, s, t))
    && InOrder(tree, s)
    && s.handled == Work(tree, s, |tree.parent|)
  }

  lemma {:induction false} OpenAfter(tree: Tree, raised: seq<bool>, t: nat, u: nat, n: nat)
    requires tree.Valid() && n <= |tree.parent| == |raised| && t < |raised| && !raised[t]
    ensures Open(tree, raised[t := true], u, n) == Open(tree, raised, u, n) - if t < n && tree.Kid(t, u) then 1 else 0
    decreases n
  {
    if n > 0 {
      OpenAfter(tree, raised, t, u, n - 1);
    }
  }

  lemma {:induction false} OpenNone(tree: Tree, raised: seq<bool>, t: nat, n: nat, c: nat)
    requires tree.Valid() && n <= |tree.parent| == |raised| && Open(tree, raised, t, n) == 0 && c < n && tree.Kid(c, t)
    ensures raised[c]
    decreases n
  {
    if c < n - 1 {
      OpenNone(tree, raised, t, n - 1, c);
    }
  }

  lemma {:induction false} OpenAll(tree: Tree, raised: seq<bool>, t: nat, n: nat)
    requires tree.Valid() && n <= |tree.parent| == |raised|
    ensures (forall c :: 0 <= c < n && tree.Kid(c, t) ==> !raised[c]) ==> Open(tree, raised, t, n) == Kids(tree, t, n)
    ensures (forall c :: 0 <= c < n && tree.Kid(c, t) ==> raised[c]) ==> Open(tree, raised, t, n) == 0
    decreases n
  {
    if n > 0 {
      OpenAll(tree, raised, t, n - 1);
    }
  }

  /** Work changes only where processed and pending change. */
  lemma {:induction false} WorkChange(tree: Tree, s: State, s': State, t: nat, n: nat)
    requires tree.Valid() && Fits(tree, s) && Fits(tree, s') && n <= |tree.parent| && t < |tree.parent|
    requires forall u :: 0 <= u < |tree.parent| && u != t ==> s'.processed[u] == s.processed[u] && s'.pending[u] == s.pending[u]
    ensures Work(tree, s', n) == Work(tree, s, n) + if t < n then WorkOf(tree, s', t) - WorkOf(tree, s, t) else 0
    decreases n
  {
    if n > 0 {
      WorkChange(tree, s, s', t, n - 1);
    }
  }

  /** The invariant, but t is about to raise completion. */
  predicate Nearly(tree: Tree, s: State, t: nat)
    requires tree.Valid()
  {
    && Fits(tree, s) && t < |tree.parent|
    && (forall u :: 0 <= u < |tree.parent| && u != t ==> Accounted(tree, s, u))
    && s.requests[t] == 0 && s.processed[t] && Issued(tree, s, t) && !s.raised[t]
    && s.pending[t] == 0 == Open(tree, s.raised, t, |tree.parent|) + s.completes[t]
    && InOrder(tree, s)
    && s.handled == Work(tree, s, |tree.parent|)
  }

  lemma RaiseInOrder(tree: Tree, s: State, t: nat)
    requires tree.Valid() && Nearly(tree, s, t)
    ensures InOrder(tree, Raise(tree, s, t))
  {
    var s' := Raise(tree, s, t);
    forall i, c | 0 <= i < |s'.order| && 0 <= c < |tree.parent| && tree.Kid(c, s'.order[i])
      ensures c in s'.order[..i]
    {
      if i == |s.order| {
        OpenNone(tree, s.raised, t, |tree.parent|, c);
        assert s'.order[..i] == s.order;
      } else {
        assert s'.order[..i] == s.order[..i];
      }
    }
  }

  lemma RaiseAccounted(tree: Tree, s: State, t: nat, u: nat)
    requires tree.Valid() && Nearly(tree, s, t) && u < |tree.parent|
    ensures Accounted(tree, Raise(tree, s, t), u)
  {
    OpenAfter(tree, s.raised, t, u, |tree.parent|);
    if u != t {
      assert Accounted(tree, s, u);
    }
  }

  lemma RaiseKeeps(tree: Tree, s: State, t: nat)
    requires tree.Valid() && Nearly(tree, s, t)
    ensures Inv(tree, Raise(tree, s, t))
  {
    RaiseInOrder(tree, s, t);
    forall u | 0 <= u < |tree.parent|
      ensures Accounted(tree, Raise(tree, s, t), u)
    {
      RaiseAccounted(tree, s, t, u);
    }
    WorkChange(tree, s, Raise(tree, s, t), t, |tree.parent|);
  }

  lemma ProcessAccounted(tree: Tree, s: State, t: nat, u: nat)
    requires tree.Valid() && Inv(tree, s) && t < |tree.parent| && s.requests[t] > 0 && u < |tree.parent|
    ensures u != t ==> Accounted(tree, Requested(tree, s, t), u)
  {
    assert Accounted(tree, s, u) && Accounted(tree, s, t);
  }

  lemma ProcessSelf(tree: Tree, s: State, t: nat)
    requires tree.Valid() && Inv(tree, s) && t < |tree.parent| && s.requests[t] > 0
    ensures var s' := Requested(tree, s, t);
            && s'.pending[t] == Open(tree, s.raised, t, |tree.parent|) == Kids(tree, t, |tree.parent|)
            && s'.completes[t] == s'.requests[t] == 0 && !s'.raised[t] && Issued(tree, s', t)
  {
    assert Accounted(tree, s, t);
    forall c | 0 <= c < |tree.parent| && tree.Kid(c, t)
      ensures !s.raised[c]
    {
      assert Accounted(tree, s, c);
    }
    OpenAll(tree, s.raised, t, |tree.parent|);
  }

  lemma ProcessKeeps(tree: Tree, s: State, t: nat)
    requires tree.Valid() && Inv(tree, s) && t < |tree.parent| && s.requests[t] > 0
    ensures Inv(tree, Process(tree, s, t))
  {
    var s' := Requested(tree, s, t);
    ProcessSelf(tree, s, t);
    forall u | 0 <= u < |tree.parent| && u != t
      ensures Accounted(tree, s', u)
    {
      ProcessAccounted(tree, s, t, u);
    }
    assert Accounted(tree, s, t);
    WorkChange(tree, s, s', t, |tree.parent|);
    assert InOrder(tree, s');
    if s'.pending[t] == 0 {
      RaiseKeeps(tree, s', t);
    }
  }

  lemma SameOrder(tree: Tree, s: State, s': State)
    requires tree.Valid() && Fits(tree, s) && Fits(tree, s') && s'.order == s.order && s'.raised == s.raised
    ensures InOrder(tree, s') == InOrder(tree, s)
  {
  }

  lemma CompletionAccounted(tree: Tree, s: State, t: nat, s': State, u: nat)
    requires tree.Valid() && Inv(tree, s) && t < |tree.parent| && s.completes[t] > 0 && s.pending[t] > 0 && u < |tree.parent|
    requires s' == s.(completes := s.completes[t := s.completes[t] - 1], handled := s.handled + 1,
                      pending := s.pending[t := s.pending[t] - 1])
    ensures u != t || s'.pending[t] > 0 ==> Accounted(tree, s', u)
  {
    assert Accounted(tree, s, u);
  }

  /** A completion is taken off the counter of its task. */
  lemma CompletionTaken(tree: Tree, s: State, t: nat, s': State)
    requires tree.Valid() && Inv(tree, s) && t < |tree.parent| && s.completes[t] > 0 && s.pending[t] > 0
    requires s' == s.(completes := s.completes[t := s.completes[t] - 1], handled := s.handled + 1,
                      pending := s.pending[t := s.pending[t] - 1])
    ensures if s'.pending[t] == 0 then Nearly(tree, s', t) else Inv(tree, s')
  {
    assert Accounted(tree, s, t);
    forall u | 0 <= u < |tree.parent|
      ensures u != t || s'.pending[t] > 0 ==> Accounted(tree, s', u)
    {
      CompletionAccounted(tree, s, t, s', u);
    }
    SameOrder(tree, s, s');
    WorkChange(tree, s, s', t, |tree.parent|);
  }

  lemma CompleteKeeps(tree: Tree, s: State, t: nat)
    requires tree.Valid() && Inv(tree, s) && t < |tree.parent| && s.completes[t] > 0
    ensures Inv(tree, Complete(tree, s, t))
  {
    assert Accounted(tree, s, t);
    var s' := s.(completes := s.completes[t := s.completes[t] - 1], handled := s.handled + 1,
                 pending := s.pending[t := s.pending[t] - 1]);
    CompletionTaken(tree, s, t, s');
    if s'.pending[t] == 0 {
      RaiseKeeps(tree, s', t);
    }
  }

  lemma {:induction false} StartWork(tree: Tree, n: nat)
    requires tree.Valid() && n <= |tree.parent|
    ensures Work(tree, Start(tree), n) == 0
    decreases n
  {
    if n > 0 {
      StartWork(tree, n - 1);
    }
  }

  /** Whatever the order in which messages are handled, every counter accounts for exactly the children that have
      not been accounted for, and tasks raise completion once, after their children. */
  lemma {:induction false} RunKeeps(tree: Tree, s: State, events: seq<Event>)
    requires tree.Valid() && Inv(tree, s)
    ensures Inv(tree, Run(tree, s, events))
    decreases |events|
  {
    if events != [] {
      if Enabled(s, events[0]) {
        match events[0]
        case RequestAt(t) => ProcessKeeps(tree, s, t);
        case CompletionAt(t) => CompleteKeeps(tree, s, t);
      }
      RunKeeps(tree, Step(tree, s, events[0]), events[1..]);
    }
  }

  lemma StartInv(tree: Tree)
    requires tree.Valid()
    ensures Inv(tree, Start(tree))
  {
    StartWork(tree, |tree.parent|);
  }

  // ----- where runs end -----

  lemma {:induction false} ProcessedIsReached(tree: Tree, s: State, t: nat)
    requires tree.Valid() && Inv(tree, s) && t < |tree.parent|
    ensures s.processed[t] ==> tree.Reached(t)
    ensures Quiet(s) ==> (s.processed[t] <==> tree.Reached(t))
    decreases t
  {
    assert Accounted(tree, s, t);
    if t > 0 {
      ProcessedIsReached(tree, s, tree.parent[t]);
    }
  }

  lemma {:induction false} QuietIsComplete(tree: Tree, s: State, t: nat)
    requires tree.Valid() && Inv(tree, s) && Quiet(s) && t < |tree.parent|
    ensures s.raised[t] <==> tree.Reached(t)
    decreases |tree.parent| - t
  {
    assert Accounted(tree, s, t);
    ProcessedIsReached(tree, s, t);
    if tree.Reached(t) {
      forall c | 0 <= c < |tree.parent| && tree.Kid(c, t)
        ensures s.raised[c]
      {
        QuietIsComplete(tree, s, c);
      }
      OpenAll(tree, s.raised, t, |tree.parent|);
    }
  }

  /** Tasks below n that requests reach. */
  function Size(tree: Tree, n: nat): nat
    requires tree.Valid() && n <= |tree.parent|
  {
    if n == 0 then 0 else Size(tree, n - 1) + if tree.Reached(n - 1) then 1 else 0
  }

  /** Children below m of the reached tasks below n. */
  function ReachedKids(tree: Tree, n: nat, m: nat): nat
    requires tree.Valid() && n <= |tree.parent| && m <= |tree.parent|
  {
    if n == 0 then 0 else ReachedKids(tree, n - 1, m) + if tree.Reached(n - 1) then Kids(tree, n - 1, m) else 0
  }

  lemma {:induction false} ReachedKidsStep(tree: Tree, n: nat, m: nat)
    requires tree.Valid() && n <= |tree.parent| && m < |tree.parent|
    ensures ReachedKids(tree, n, m + 1) ==
            ReachedKids(tree, n, m) + if m > 0 && tree.accepts[m] && tree.parent[m] < n && tree.Reached(tree.parent[m]) then 1 else 0
    decreases n
  {
    if n > 0 {
      ReachedKidsStep(tree, n - 1, m);
    }
  }

  lemma {:induction false} NoKidsBelowZero(tree: Tree, n: nat)
    requires tree.Valid() && n <= |tree.parent|
    ensures ReachedKids(tree, n, 0) == 0
    decreases n
  {
    if n > 0 {
      NoKidsBelowZero(tree, n - 1);
    }
  }

  /** Every reached task but the root is the child of exactly one reached task. */
  lemma {:induction false} KidsAreTheOthers(tree: Tree, m: nat)
    requires tree.Valid() && 0 < m <= |tree.parent|
    ensures ReachedKids(tree, |tree.parent|, m) == Size(tree, m) - 1
    decreases m
  {
    ReachedKidsStep(tree, |tree.parent|, m - 1);
    if m == 1 {
      NoKidsBelowZero(tree, |tree.parent|);
      assert Size(tree, 1) == Size(tree, 0) + 1;
    } else {
      KidsAreTheOthers(tree, m - 1);
    }
  }

  lemma {:induction false} WorkBound(tree: Tree, s: State, n: nat)
    requires tree.Valid() && Inv(tree, s) && n <= |tree.parent|
    ensures Work(tree, s, n) <= Size(tree, n) + ReachedKids(tree, n, |tree.parent|)
    ensures Quiet(s) ==> Work(tree, s, n) == Size(tree, n) + ReachedKids(tree, n, |tree.parent|)
    decreases n
  {
    if n > 0 {
      WorkBound(tree, s, n - 1);
      ProcessedIsReached(tree, s, n - 1);
      assert Accounted(tree, s, n - 1);
      if Quiet(s) {
        QuietIsComplete(tree, s, n - 1);
      }
    }
  }

  /** d is t or a descendant of t that requests to t reach. */
  predicate Below(tree: Tree, d: nat, t: nat)
    requires tree.Valid() && d < |tree.parent|
  {
    d == t || (d > 0 && tree.accepts[d] && Below(tree, tree.parent[d], t))
  }

  lemma {:induction false} DescendantsFirst(tree: Tree, s: State, i: nat, d: nat)
    requires tree.Valid() && Inv(tree, s) && i < |s.order| && d < |tree.parent|
    requires d != s.order[i] && Below(tree, d, s.order[i])
    ensures d in s.order[..i]
    decreases d
  {
    if tree.parent[d] == s.order[i] {
      assert tree.Kid(d, s.order[i]);
    } else {
      DescendantsFirst(tree, s, i, tree.parent[d]);
      var j :| 0 <= j < i && s.order[j] == tree.parent[d];
      assert tree.Kid(d, s.order[j]);
      assert d in s.order[..j];
    }
  }

  /** For one request to the root of an idle tree and every interleaving of the tasks: a run handles fewer than two
      messages per task; when no message is left, exactly the reached tasks have raised completion; and a task
      raises completion once, after all its descendants. */
  lemma EveryRunCompletes(tree: Tree, events: seq<Event>)
    requires tree.Valid()
    ensures var s := Run(tree, Start(tree), events);
            && s.handled < 2 * Size(tree, |tree.parent|)
            && (Quiet(s) ==> s.handled == 2 * Size(tree, |tree.parent|) - 1)
            && (Quiet(s) ==> forall t :: 0 <= t < |tree.parent| ==> (t in s.order <==> tree.Reached(t)))
            && (forall i, j :: 0 <= i < j < |s.order| ==> s.order[i] != s.order[j])
            && (forall i, d :: 0 <= i < |s.order| && 0 <= d < |tree.parent| && d != s.order[i] && Below(tree, d, s.order[i]) ==>
                                 d in s.order[..i])
  {
    var s := Run(tree, Start(tree), events);
    StartInv(tree);
    RunKeeps(tree, Start(tree), events);
    WorkBound(tree, s, |tree.parent|);
    KidsAreTheOthers(tree, |tree.parent|);
    if Quiet(s) {
      forall t | 0 <= t < |tree.parent|
        ensures t in s.order <==> tree.Reached(t)
      {
        QuietIsComplete(tree, s, t);
      }
    }
    forall i, d | 0 <= i < |s.order| && 0 <= d < |tree.parent| && d != s.order[i] && Below(tree, d, s.order[i])
      ensures d in s.order[..i]
    {
      DescendantsFirst(tree, s, i, d);
    }
  }

  /** If all tasks accept messages, all are reached, so that n tasks take 2n - 1 messages. */
  lemma {:induction false} AllReached(tree: Tree, n: nat)
    requires tree.Valid() && n <= |tree.parent| && forall t :: 0 <= t < |tree.parent| ==> tree.accepts[t]
    ensures Size(tree, n) == n && forall t :: 0 <= t < n ==> tree.Reached(t)
    decreases n
  {
    if n > 0 {
      AllReached(tree, n - 1);
      assert n > 1 ==> tree.Reached(tree.parent[n - 1]);
    }
  }

  // ----- the tasks as they run -----

  class Tasks {
    const tree: Tree
    var requests: seq<nat>
    var completes: seq<nat>
    var pending: seq<nat>
    var order: seq<nat>
    ghost var processed: seq<bool>
    ghost var raised: seq<bool>
    ghost var handled: nat

    ghost function View(): State
      reads this
    {
      State(requests, completes, pending, processed, raised, order, handled)
    }

    ghost predicate Valid()
      reads this
    {
      tree.Valid() && Fits(tree, View())
    }

    /** An idle tree, and a request sent to its root. */
    constructor (tree: Tree)
      requires tree.Valid()
      ensures Valid() && this.tree == tree && View() == Start(tree)
    {
      this.tree := tree;
      var n := |tree.parent|;
      requests, completes, pending, order := Zeros(n)[0 := 1], Zeros(n), Zeros(n), [];
      processed, raised, handled := Falses(n), Falses(n), 0;
    }

    method RaiseCompletion(t: nat)
      requires Valid() && t < |tree.parent|
      modifies this`completes, this`raised, this`order
      ensures Valid() && View() == Raise(tree, old(View()), t)
    {
      order := order + [t];
      raised := raised[t := true];
      if t > 0 {
        var p := tree.parent[t];
        completes := completes[p := completes[p] + 1];
      }
    }

    method RequestProcess(t: nat)
      requires Valid() && t < |tree.parent| && requests[t] > 0
      modifies this
      ensures Valid() && View() == Process(tree, old(View()), t)
    {
      requests := requests[t := requests[t] - 1];
      processed, handled := processed[t := true], handled + 1;
      SendRequests(t);
      if pending[t] == 0 {
        RaiseCompletion(t);
      }
    }

    method SendRequests(t: nat)
      requires tree.Valid() && t < |tree.parent| == |requests| == |pending|
      modifies this`requests, this`pending
      ensures requests == Sent(tree, old(requests), t, |tree.parent|)
      ensures pending == old(pending)[t := old(pending[t]) + Kids(tree, t, |tree.parent|)]
    {
      SentNone(tree, requests, t);
      var count := pending[t];
      for c := 1 to |tree.parent|
        invariant requests == Sent(tree, old(requests), t, c)
        invariant pending == old(pending)[t := count] && count == old(pending[t]) + Kids(tree, t, c)
      {
        SentNext(tree, old(requests), t, c);
        if tree.parent[c] == t && tree.accepts[c] {
          requests := requests[c := requests[c] + 1];
          count := count + 1;
          pending := pending[t := count];
        }
      }
    }

    method RequestComplete(t: nat)
      requires Valid() && t < |tree.parent| && completes[t] > 0
      modifies this
      ensures Valid() && View() == Complete(tree, old(View()), t)
    {
      completes := completes[t := completes[t] - 1];
      handled := handled + 1;
      if pending[t] == 0 {
        return;
      }
      pending := pending[t := pending[t] - 1];
      if pending[t] == 0 {
        RaiseCompletion(t);
      }
    }

    /** Handles messages in the given order. */
    method Handle(events: seq<Event>)
      requires Valid() && View() == Start(tree)
      modifies this
      ensures Valid() && View() == Run(tree, Start(tree), events) && handled < 2 * Size(tree, |tree.parent|)
      ensures Quiet(View()) ==> forall t :: 0 <= t < |tree.parent| ==> (t in order <==> tree.Reached(t))
    {
      ghost var goal := Run(tree, View(), events);
      for i := 0 to |events|
        invariant Valid() && goal == Run(tree, View(), events[i..])
      {
        assert events[i..][0] == events[i] && events[i..][1..] == events[i + 1..];
        match events[i]
        case RequestAt(t) =>
          if t < |requests| && requests[t] > 0 {
            RequestProcess(t);
          }
        case CompletionAt(t) =>
          if t < |completes| && completes[t] > 0 {
            RequestComplete(t);
          }
      }
      EveryRunCompletes(tree, events);
    }
  }
}
