/**
  The cause-chain matcher of the retry utilities.

  A Java throwable is a node of a finite graph: it has a runtime class, the set
  of classes it is an instance of (its class and every superclass), an optional
  `cause` link to another node, and, when it is a TapCodeException, an error
  code. Node identities stand for object identity, which is what the matcher's
  visited list compares.
*/
module ErrorChain {
  import opened Wrappers

  type ErrorId = nat

  datatype Throwable = Throwable(cls: string, classes: set<string>, cause: Option<ErrorId>, code: string)

  type Graph = map<ErrorId, Throwable>

  const IO_EXCEPTION := "java.io.IOException"
  const SQL_RECOVERABLE_EXCEPTION := "java.sql.SQLRecoverableException"
  const SQL_TIMEOUT_EXCEPTION := "java.sql.SQLTimeoutException"
  const TAP_CODE_EXCEPTION := "io.tapdata.exception.TapCodeException"

  /** The transient classes that are retried without asking anyone. */
  const DEFAULT_RETRY_INCLUDE: seq<string> := [IO_EXCEPTION, SQL_RECOVERABLE_EXCEPTION, SQL_TIMEOUT_EXCEPTION]

  /** Every node is an instance of its own class and every cause link stays in the graph. */
  ghost predicate WellFormed(g: Graph) {
    forall id :: id in g ==>
      && g[id].cls in g[id].classes
      && (g[id].cause.Some? ==> g[id].cause.value in g)
  }

  predicate IsInstance(g: Graph, id: ErrorId, cls: string)
    requires id in g
  {
    cls in g[id].classes
  }

  /** A walk along cause links that never visits a node twice. */
  ghost predicate IsWalk(g: Graph, s: seq<ErrorId>) {
    && |s| > 0
    && (forall i :: 0 <= i < |s| ==> s[i] in g)
    && (forall i, j :: 0 <= i < j < |s| ==> s[i] != s[j])
    && (forall i :: 0 <= i < |s| - 1 ==> g[s[i]].cause == Some(s[i + 1]))
  }

  /** The walk cannot be extended: the last node has no cause or its cause was already visited. */
  ghost predicate Stopped(g: Graph, s: seq<ErrorId>)
    requires IsWalk(g, s)
  {
    var cause := g[s[|s| - 1]].cause;
    cause.None? || cause.value in s
  }

  /** A sequence of distinct members of `keys` is no longer than `keys`. */
  lemma {:induction false} DistinctWithin(s: seq<ErrorId>, keys: set<ErrorId>)
    requires forall i :: 0 <= i < |s| ==> s[i] in keys
    requires forall i, j :: 0 <= i < j < |s| ==> s[i] != s[j]
    ensures |s| <= |keys|
  {
    if |s| > 0 {
      var last := s[|s| - 1];
      var init := s[..|s| - 1];
      forall i | 0 <= i < |init|
        ensures init[i] in keys - {last}
      {
        assert init[i] == s[i] && s[i] != s[|s| - 1];
      }
      DistinctWithin(init, keys - {last});
    }
  }

  /** Extends a walk along cause links until it stops; the walk is a prefix of the result. */
  function ChainFrom(g: Graph, walk: seq<ErrorId>): (r: seq<ErrorId>)
    requires WellFormed(g) && IsWalk(g, walk)
    ensures IsWalk(g, r) && Stopped(g, r)
    ensures walk <= r
    decreases |g.Keys| - |walk|
  {
    var cause := g[walk[|walk| - 1]].cause;
    if cause.None? || cause.value in walk then walk
    else
      var next := walk + [cause.value];
      assert IsWalk(g, next);
      DistinctWithin(next, g.Keys);
      ChainFrom(g, next)
  }

  /** The cause chain of `e`: `e` first, then its causes, cut at the first null or repeated cause. */
  function Chain(g: Graph, e: ErrorId): (r: seq<ErrorId>)
    requires WellFormed(g) && e in g
    ensures IsWalk(g, r) && Stopped(g, r) && r[0] == e
    ensures |r| <= |g.Keys|
  {
    var r := ChainFrom(g, [e]);
    DistinctWithin(r, g.Keys);
    r
  }

  /** The first node of `s` that is an instance of `cls`. */
  function FirstInstance(g: Graph, s: seq<ErrorId>, cls: string): (r: Option<ErrorId>)
    requires forall i :: 0 <= i < |s| ==> s[i] in g
    ensures r.None? <==> forall i :: 0 <= i < |s| ==> !IsInstance(g, s[i], cls)
    ensures r.Some? ==> exists i :: 0 <= i < |s| && s[i] == r.value && IsInstance(g, s[i], cls)
                                   && forall j :: 0 <= j < i ==> !IsInstance(g, s[j], cls)
  {
    if |s| == 0 then None
    else if IsInstance(g, s[0], cls) then Some(s[0])
    else
      var r := FirstInstance(g, s[1..], cls);
      assert r.Some? ==> exists i :: 1 <= i < |s| && s[i] == r.value && IsInstance(g, s[i], cls)
                                     && forall j :: 0 <= j < i ==> !IsInstance(g, s[j], cls) by {
        if r.Some? {
          var i :| 0 <= i < |s[1..]| && s[1..][i] == r.value && IsInstance(g, s[1..][i], cls)
                   && forall j :: 0 <= j < i ==> !IsInstance(g, s[1..][j], cls);
          assert s[i + 1] == r.value;
          forall j | 0 <= j < i + 1 ensures !IsInstance(g, s[j], cls) {
            if j > 0 { assert s[j] == s[1..][j - 1]; }
          }
        }
      }
      r
  }

  /**
    What the matcher finds: nothing for null; the error itself when its runtime
    class is exactly `cls`; otherwise the first cause after it that is an
    instance of `cls`.
  */
  function Match(g: Graph, e: Option<ErrorId>, cls: string): (r: Option<ErrorId>)
    requires WellFormed(g) && (e.Some? ==> e.value in g)
    ensures r.Some? ==> r.value in g && IsInstance(g, r.value, cls)
    ensures e.None? ==> r.None?
  {
    if e.None? then None
    else if g[e.value].cls == cls then e
    else FirstInstance(g, Chain(g, e.value)[1..], cls)
  }

  /**
    The matcher as the source runs it: a loop that follows cause links, keeps
    the visited throwables in a list and stops at a null or already-visited cause.
  */
  method MatchThrowable(g: Graph, e: Option<ErrorId>, cls: string) returns (r: Option<ErrorId>)
    requires WellFormed(g) && (e.Some? ==> e.value in g)
    ensures r == Match(g, e, cls)
  {
    if e.None? {
      return None;
    }
    var head := e.value;
    if g[head].cls == cls {
      return e;
    }
    var throwables := [head];
    while true
      invariant IsWalk(g, throwables) && throwables[0] == head
      invariant ChainFrom(g, throwables) == Chain(g, head)
      invariant forall j :: 1 <= j < |throwables| ==> !IsInstance(g, throwables[j], cls)
      decreases |g.Keys| - |throwables|
    {
      var cause := g[throwables[|throwables| - 1]].cause;
      if cause.None? || cause.value in throwables {
        assert Chain(g, head) == throwables;
        NoInstanceInChain(g, throwables[1..], cls);
        return None;
      }
      var next := throwables + [cause.value];
      assert IsWalk(g, next);
      DistinctWithin(next, g.Keys);
      if IsInstance(g, cause.value, cls) {
        FirstInstanceAfterMisses(g, Chain(g, head)[1..], |throwables| - 1, cls);
        return cause;
      }
      throwables := next;
    }
  }

  lemma NoInstanceInChain(g: Graph, s: seq<ErrorId>, cls: string)
    requires forall i :: 0 <= i < |s| ==> s[i] in g && !IsInstance(g, s[i], cls)
    ensures FirstInstance(g, s, cls) == None
  {
  }

  /** When the first `k` nodes miss and node `k` matches, node `k` is the first instance. */
  lemma {:induction false} FirstInstanceAfterMisses(g: Graph, s: seq<ErrorId>, k: nat, cls: string)
    requires forall i :: 0 <= i < |s| ==> s[i] in g
    requires k < |s| && IsInstance(g, s[k], cls)
    requires forall j :: 0 <= j < k ==> !IsInstance(g, s[j], cls)
    ensures FirstInstance(g, s, cls) == Some(s[k])
  {
    if k > 0 {
      FirstInstanceAfterMisses(g, s[1..], k - 1, cls);
    }
  }

  /**
    `cls` is found in the chain of `e`: by exact class at the head, or as an
    instance anywhere after it.
  */
  ghost predicate FoundInChain(g: Graph, e: ErrorId, cls: string)
    requires WellFormed(g) && e in g
  {
    g[e].cls == cls || exists j :: 1 <= j < |Chain(g, e)| && IsInstance(g, Chain(g, e)[j], cls)
  }

  /** The matcher finds something exactly when `cls` is found in the chain. */
  lemma MatchFindsIff(g: Graph, e: ErrorId, cls: string)
    requires WellFormed(g) && e in g
    ensures Match(g, Some(e), cls).Some? <==> FoundInChain(g, e, cls)
  {
    var c := Chain(g, e);
    if g[e].cls != cls {
      if Match(g, Some(e), cls).Some? {
        var i :| 0 <= i < |c[1..]| && IsInstance(g, c[1..][i], cls);
        assert c[i + 1] == c[1..][i];
      }
      if exists j :: 1 <= j < |c| && IsInstance(g, c[j], cls) {
        var j :| 1 <= j < |c| && IsInstance(g, c[j], cls);
        assert c[1..][j - 1] == c[j];
      }
    }
  }

  /** Whether the matcher finds any of `classes`, tried in order as the source's loop does. */
  function MatchesAny(g: Graph, e: ErrorId, classes: seq<string>): (r: bool)
    requires WellFormed(g) && e in g
    ensures r <==> exists i :: 0 <= i < |classes| && Match(g, Some(e), classes[i]).Some?
  {
    if |classes| == 0 then false
    else if Match(g, Some(e), classes[0]).Some? then true
    else
      var r := MatchesAny(g, e, classes[1..]);
      assert r ==> exists i :: 1 <= i < |classes| && Match(g, Some(e), classes[i]).Some? by {
        if r {
          var i :| 0 <= i < |classes[1..]| && Match(g, Some(e), classes[1..][i]).Some?;
          assert classes[i + 1] == classes[1..][i];
        }
      }
      r
  }

  /** An error is retried by default when the matcher finds one of the built-in transient classes. */
  function NeedDefaultRetry(g: Graph, e: ErrorId): (r: bool)
    requires WellFormed(g) && e in g
    ensures r <==> exists i :: 0 <= i < |DEFAULT_RETRY_INCLUDE| && Match(g, Some(e), DEFAULT_RETRY_INCLUDE[i]).Some?
  {
    MatchesAny(g, e, DEFAULT_RETRY_INCLUDE)
  }

  /** Default retry, in terms of the chain: one of the three transient classes is found in it. */
  lemma NeedDefaultRetryIff(g: Graph, e: ErrorId)
    requires WellFormed(g) && e in g
    ensures NeedDefaultRetry(g, e) <==>
      (FoundInChain(g, e, IO_EXCEPTION)
       || FoundInChain(g, e, SQL_RECOVERABLE_EXCEPTION)
       || FoundInChain(g, e, SQL_TIMEOUT_EXCEPTION))
  {
    MatchFindsIff(g, e, IO_EXCEPTION);
    MatchFindsIff(g, e, SQL_RECOVERABLE_EXCEPTION);
    MatchFindsIff(g, e, SQL_TIMEOUT_EXCEPTION);
    assert DEFAULT_RETRY_INCLUDE[0] == IO_EXCEPTION;
    assert DEFAULT_RETRY_INCLUDE[1] == SQL_RECOVERABLE_EXCEPTION;
    assert DEFAULT_RETRY_INCLUDE[2] == SQL_TIMEOUT_EXCEPTION;
  }

  /** A cause chain A -> B -> C whose last cause points back to B. */
  function CyclicGraph(): (g: Graph)
    ensures WellFormed(g)
  {
    map[0 := Throwable("A", {"A"}, Some(1), ""),
        1 := Throwable("B", {"B"}, Some(2), ""),
        2 := Throwable("C", {"C"}, Some(1), "")]
  }

  /** One step of the walk: a cause not yet visited is appended. */
  lemma ChainFromStep(g: Graph, walk: seq<ErrorId>, c: ErrorId)
    requires WellFormed(g) && IsWalk(g, walk)
    requires g[walk[|walk| - 1]].cause == Some(c) && c !in walk
    ensures IsWalk(g, walk + [c]) && ChainFrom(g, walk) == ChainFrom(g, walk + [c])
  {
  }

  /** The walk ends at a null or already-visited cause. */
  lemma ChainFromEnd(g: Graph, walk: seq<ErrorId>)
    requires WellFormed(g) && IsWalk(g, walk) && Stopped(g, walk)
    ensures ChainFrom(g, walk) == walk
  {
  }

  /** The walk over the cycle visits A, B and C once each and stops. */
  lemma CyclicChain()
    ensures Chain(CyclicGraph(), 0) == [0, 1, 2]
  {
    var g := CyclicGraph();
    ChainFromStep(g, [0], 1);
    assert [0] + [1] == [0, 1];
    ChainFromStep(g, [0, 1], 2);
    assert [0, 1] + [2] == [0, 1, 2];
    ChainFromEnd(g, [0, 1, 2]);
  }

  /** On the cycle the matcher still finds C, and stops without finding a class that is not there. */
  lemma CyclicChainStops()
    ensures Match(CyclicGraph(), Some(0), "C") == Some(2)
    ensures Match(CyclicGraph(), Some(0), "D") == None
  {
    var g := CyclicGraph();
    CyclicChain();
    var c := Chain(g, 0);
    assert c[1..] == [1, 2];
    FirstInstanceAfterMisses(g, c[1..], 1, "C");
  }

  /** A socket failure: an IOException subclass, alone or as the cause of a runtime exception. */
  function SocketFailure(wrapped: bool): (g: Graph)
    ensures WellFormed(g) && 0 in g
  {
    var socket := Throwable("java.net.SocketException",
                            {"java.net.SocketException", IO_EXCEPTION, "java.lang.Exception"}, None, "");
    if wrapped then
      map[0 := Throwable("java.lang.RuntimeException", {"java.lang.RuntimeException", "java.lang.Exception"}, Some(1), ""),
          1 := socket]
    else map[0 := socket]
  }

  /** An IOException subclass thrown directly is not retried by default: the head needs the exact class. */
  lemma DirectSubclassNotRetried()
    ensures !NeedDefaultRetry(SocketFailure(false), 0)
  {
    var g := SocketFailure(false);
    ChainFromEnd(g, [0]);
    NeedDefaultRetryIff(g, 0);
  }

  /** The same failure as the cause of another exception is retried by default. */
  lemma WrappedSubclassRetried()
    ensures NeedDefaultRetry(SocketFailure(true), 0)
  {
    var g := SocketFailure(true);
    ChainFromStep(g, [0], 1);
    assert [0] + [1] == [0, 1];
    ChainFromEnd(g, [0, 1]);
    assert Match(g, Some(0), IO_EXCEPTION) == Some(1);
    assert DEFAULT_RETRY_INCLUDE[0] == IO_EXCEPTION;
  }
}
