/**
 * Why dropping a thread whose key was seen changes no answer. A closure keeps the threads `visited`, in order;
 * those that wait are its threads, and `pending` are still to be explored. Whatever a visited thread would find
 * is found by a thread that waits, or is still pending below nothing but its own descendants.
 */
module Closures {
  import opened Options
  import opened Denotation
  import opened Machine
  import opened Nesting
  import opened Futures

  /** The first match a thread finds. */
  ghost function FirstOne(p: Code, e: Env, k: nat, c: Config): Option<State> {
    var r := RunOne(p, e, k, c);
    if r.Some? && r.value != [] then Some(r.value[0]) else None
  }

  function OrElse(a: Option<State>, b: Option<State>): Option<State> {
    if a.Some? then a else b
  }

  /** The first match of a list of threads, in its order. */
  ghost function First(p: Code, e: Env, k: nat, cs: seq<Config>): Option<State> {
    if cs == [] then None else OrElse(FirstOne(p, e, k, cs[0]), First(p, e, k, cs[1..]))
  }

  lemma {:induction false} FirstAppend(p: Code, e: Env, k: nat, cs: seq<Config>, ds: seq<Config>)
    ensures First(p, e, k, cs + ds) == OrElse(First(p, e, k, cs), First(p, e, k, ds))
    decreases |cs|
  {
    hide FirstOne;
    if cs == [] {
      assert cs + ds == ds;
    } else {
      assert (cs + ds)[1..] == cs[1..] + ds;
      FirstAppend(p, e, k, cs[1..], ds);
    }
  }

  /** The first match is the head of all matches. */
  lemma {:induction false} FirstIsHead(p: Code, e: Env, k: nat, cs: seq<Config>)
    requires Run(p, e, k, cs).Some?
    ensures First(p, e, k, cs) == var rs := Run(p, e, k, cs).value; if rs == [] then None else Some(rs[0])
    decreases |cs|
  {
    if cs != [] {
      FirstIsHead(p, e, k, cs[1..]);
    }
  }

  ghost predicate Ends(p: Code, e: Env, k: nat, c: Config) {
    RunOne(p, e, k, c).Some?
  }

  ghost predicate AllEnd(p: Code, e: Env, k: nat, cs: seq<Config>) {
    forall i :: 0 <= i < |cs| ==> Ends(p, e, k, cs[i])
  }

  /** The fewest steps within which a thread ends. */
  ghost function Rank(p: Code, e: Env, k: nat, c: Config): (r: nat)
    requires Ends(p, e, k, c)
    ensures r <= k && Ends(p, e, r, c)
    ensures r > 0 ==> !Ends(p, e, r - 1, c)
  {
    if k > 0 && Ends(p, e, k - 1, c) then Rank(p, e, k - 1, c) else k
  }

  lemma RankIsLeast(p: Code, e: Env, k: nat, m: nat, c: Config)
    requires Ends(p, e, k, c) && Ends(p, e, m, c)
    ensures Rank(p, e, k, c) <= m
  {
    var r := Rank(p, e, k, c);
    if m < r {
      RunOneLonger(p, e, m, r - 1, c);
    }
  }

  lemma {:induction false} RunEnds(p: Code, e: Env, k: nat, cs: seq<Config>)
    requires Run(p, e, k, cs).Some?
    ensures AllEnd(p, e, k, cs)
    decreases |cs|
  {
    if cs != [] {
      RunEnds(p, e, k, cs[1..]);
    }
  }

  /** A thread's successors end sooner than it, and find what it finds. */
  lemma NextEndsSooner(p: Code, e: Env, k: nat, c: Config)
    requires Ends(p, e, k, c) && !AtMatch(p, c)
    ensures AllEnd(p, e, k, Next(p, e, c))
    ensures forall i :: 0 <= i < |Next(p, e, c)| ==> Rank(p, e, k, Next(p, e, c)[i]) < Rank(p, e, k, c)
    ensures FirstOne(p, e, k, c) == First(p, e, k, Next(p, e, c))
  {
    hide Next, Run, Rank, First;
    var ds, r := Next(p, e, c), Rank(p, e, k, c);
    RunEnds(p, e, r - 1, ds);
    RunLonger(p, e, r - 1, k, ds);
    RunEnds(p, e, k, ds);
    RunOneLonger(p, e, r, k, c);
    FirstIsHead(p, e, k, ds);
    forall i | 0 <= i < |ds| ensures Rank(p, e, k, ds[i]) < r {
      RankIsLeast(p, e, k, r - 1, ds[i]);
    }
  }

  /** Threads with the same key have the same rank, and either both find a match or neither. */
  lemma SameRank(p: Code, e: Env, k: nat, c: Config, d: Config)
    requires Nested(p) && NoBackrefs(p) && Alike(p, c, d) && Ends(p, e, k, c) && Ends(p, e, k, d)
    ensures Rank(p, e, k, c) == Rank(p, e, k, d)
    ensures FirstOne(p, e, k, c).Some? <==> FirstOne(p, e, k, d).Some?
  {
    SameFuture(p, e, k, c, d);
    SameFuture(p, e, Rank(p, e, k, c), c, d);
    SameFuture(p, e, Rank(p, e, k, d), c, d);
    RankIsLeast(p, e, k, Rank(p, e, k, d), c);
    RankIsLeast(p, e, k, Rank(p, e, k, c), d);
  }

  // ----- a closure's state -----

  predicate IsThread(p: Code, c: Config) {
    c.pc < |p| && (p[c.pc].Class? || p[c.pc].Match?)
  }

  /** The visited threads that wait, in order. */
  function Threads(p: Code, visited: seq<Config>): seq<Config> {
    if visited == [] then [] else
      var n := |visited| - 1;
      Threads(p, visited[..n]) + if IsThread(p, visited[n]) then [visited[n]] else []
  }

  /** Threads of a nested program at one position that end within `k` steps. */
  ghost predicate AllSound(p: Code, e: Env, k: nat, pos: nat, cs: seq<Config>) {
    forall i :: 0 <= i < |cs| ==> Sound(p, cs[i]) && cs[i].s.pos == pos && Ends(p, e, k, cs[i])
  }

  /** What `v` would find, a waiting thread finds, or one of its descendants pending above everything else. */
  ghost predicate Covered(p: Code, e: Env, k: nat, v: Config, visited: seq<Config>, pending: seq<Config>)
    requires Ends(p, e, k, v) && AllEnd(p, e, k, pending)
  {
    FirstOne(p, e, k, v).Some? ==>
      || First(p, e, k, Threads(p, visited)).Some?
      || exists j :: 0 <= j < |pending| && FirstOne(p, e, k, pending[j]).Some? && AllBelow(p, e, k, v, pending, j)
  }

  ghost predicate AllBelow(p: Code, e: Env, k: nat, v: Config, pending: seq<Config>, j: nat)
    requires Ends(p, e, k, v) && AllEnd(p, e, k, pending) && j < |pending|
  {
    forall i :: 0 <= i <= j ==> Rank(p, e, k, pending[i]) < Rank(p, e, k, v)
  }

  ghost predicate Closing(p: Code, e: Env, k: nat, pos: nat, visited: seq<Config>, pending: seq<Config>) {
    && AllSound(p, e, k, pos, visited) && AllSound(p, e, k, pos, pending)
    && AllEnd(p, e, k, pending)
    && forall i :: 0 <= i < |visited| ==> Covered(p, e, k, visited[i], visited, pending)
  }

  /** The answer a closure works towards. */
  ghost function Outlook(p: Code, e: Env, k: nat, visited: seq<Config>, pending: seq<Config>): Option<State> {
    OrElse(First(p, e, k, Threads(p, visited)), First(p, e, k, pending))
  }

  lemma OutlookDone(p: Code, e: Env, k: nat, visited: seq<Config>)
    ensures Outlook(p, e, k, visited, []) == First(p, e, k, Threads(p, visited))
  {
    hide FirstOne, Threads;
    assert First(p, e, k, []) == None;
  }

  /** A pending thread whose key was visited can be dropped. */
  lemma DropSeen(p: Code, e: Env, k: nat, pos: nat, visited: seq<Config>, pending: seq<Config>, v: nat)
    requires Nested(p) && NoBackrefs(p) && Closing(p, e, k, pos, visited, pending) && pending != []
    requires v < |visited| && Key(p, visited[v]) == Key(p, pending[0])
    ensures Closing(p, e, k, pos, visited, pending[1..])
    ensures Outlook(p, e, k, visited, pending[1..]) == Outlook(p, e, k, visited, pending)
  {
    hide First, FirstOne, Rank, Threads, Sound, Ends;
    var c, rest := pending[0], pending[1..];
    SameRank(p, e, k, visited[v], c);
    SeenIsSettled(p, e, k, visited, pending, visited[v]);
    FirstOfCons(p, e, k, c, rest);
    assert [c] + rest == pending;
    forall i | 0 <= i < |visited| ensures Covered(p, e, k, visited[i], visited, rest) {
      CoverDropped(p, e, k, visited[i], visited, pending);
    }
  }

  lemma FirstOfCons(p: Code, e: Env, k: nat, c: Config, rest: seq<Config>)
    ensures First(p, e, k, [c] + rest) == OrElse(FirstOne(p, e, k, c), First(p, e, k, rest))
  {
    assert ([c] + rest)[1..] == rest;
  }

  /** The thread that has the key of one seen cannot descend from it, so what it would find is found already. */
  lemma SeenIsSettled(p: Code, e: Env, k: nat, visited: seq<Config>, pending: seq<Config>, v: Config)
    requires pending != [] && Ends(p, e, k, v) && AllEnd(p, e, k, pending)
    requires Covered(p, e, k, v, visited, pending) && Rank(p, e, k, v) == Rank(p, e, k, pending[0])
    requires FirstOne(p, e, k, v).Some? <==> FirstOne(p, e, k, pending[0]).Some?
    ensures FirstOne(p, e, k, pending[0]).Some? ==> First(p, e, k, Threads(p, visited)).Some?
  {
    hide First, FirstOne, Rank, Threads, Ends;
  }

  lemma CoverDropped(p: Code, e: Env, k: nat, v: Config, visited: seq<Config>, pending: seq<Config>)
    requires pending != [] && Ends(p, e, k, v) && AllEnd(p, e, k, pending)
    requires Covered(p, e, k, v, visited, pending)
    requires FirstOne(p, e, k, pending[0]).Some? ==> First(p, e, k, Threads(p, visited)).Some?
    ensures AllEnd(p, e, k, pending[1..]) && Covered(p, e, k, v, visited, pending[1..])
  {
    hide First, FirstOne, Rank, Threads, Ends;
    var rest := pending[1..];
    if FirstOne(p, e, k, v).Some? && !First(p, e, k, Threads(p, visited)).Some? {
      var j :| 0 <= j < |pending| && FirstOne(p, e, k, pending[j]).Some? && AllBelow(p, e, k, v, pending, j);
      assert FirstOne(p, e, k, rest[j - 1]).Some? && AllBelow(p, e, k, v, rest, j - 1);
    }
  }

  lemma ThreadsAppend(p: Code, visited: seq<Config>, c: Config)
    ensures Threads(p, visited + [c]) == Threads(p, visited) + if IsThread(p, c) then [c] else []
  {
    assert (visited + [c])[..|visited|] == visited;
  }

  /** A pending thread that does not wait is visited and its successors take its place. */
  lemma ExploreNext(p: Code, e: Env, k: nat, pos: nat, visited: seq<Config>, pending: seq<Config>)
    requires Nested(p) && NoBackrefs(p) && Closing(p, e, k, pos, visited, pending) && pending != []
    requires !IsThread(p, pending[0])
    ensures var visited', pending' := visited + [pending[0]], Next(p, e, pending[0]) + pending[1..];
            Closing(p, e, k, pos, visited', pending') && Outlook(p, e, k, visited', pending') == Outlook(p, e, k, visited, pending)
  {
    hide First, FirstOne, Rank, Threads, Sound, Ends, Next;
    var c, ds, rest := pending[0], Next(p, e, pending[0]), pending[1..];
    var visited', pending' := visited + [c], ds + rest;
    ThreadsAppend(p, visited, c);
    assert Threads(p, visited') == Threads(p, visited);
    NextIsSound(p, e, c);
    NextStays(p, e, c);
    NextEndsSooner(p, e, k, c);
    FirstOfCons(p, e, k, c, rest);
    assert [c] + rest == pending;
    FirstAppend(p, e, k, ds, rest);
    assert AllSound(p, e, k, pos, pending') && AllEnd(p, e, k, pending');
    forall i | 0 <= i < |visited'| ensures Covered(p, e, k, visited'[i], visited', pending') {
      if i < |visited| {
        CoverExplored(p, e, k, visited[i], visited, visited', pending, ds);
      } else {
        FirstHits(p, e, k, ds);
        CoverSelf(p, e, k, c, visited', ds, rest);
      }
    }
  }

  lemma NextStays(p: Code, e: Env, c: Config)
    requires Nested(p) && NoBackrefs(p) && Sound(p, c) && !IsThread(p, c)
    ensures forall i :: 0 <= i < |Next(p, e, c)| ==> Next(p, e, c)[i].s.pos == c.s.pos
  {
    BegunNext(p, e, c);
  }

  /** A list that finds a match has a thread that finds one. */
  lemma {:induction false} FirstHits(p: Code, e: Env, k: nat, cs: seq<Config>)
    ensures First(p, e, k, cs).Some? ==> exists j :: 0 <= j < |cs| && FirstOne(p, e, k, cs[j]).Some?
    decreases |cs|
  {
    hide FirstOne;
    if cs != [] {
      FirstHits(p, e, k, cs[1..]);
      if !FirstOne(p, e, k, cs[0]).Some? && First(p, e, k, cs[1..]).Some? {
        var j :| 0 <= j < |cs[1..]| && FirstOne(p, e, k, cs[1..][j]).Some?;
        assert cs[j + 1] == cs[1..][j];
      }
    }
  }

  lemma CoverExplored(p: Code, e: Env, k: nat, v: Config, visited: seq<Config>, visited': seq<Config>,
                      pending: seq<Config>, ds: seq<Config>)
    requires pending != [] && Ends(p, e, k, v) && AllEnd(p, e, k, pending) && AllEnd(p, e, k, ds)
    requires Covered(p, e, k, v, visited, pending) && Threads(p, visited') == Threads(p, visited)
    requires FirstOne(p, e, k, pending[0]) == First(p, e, k, ds)
    requires forall i :: 0 <= i < |ds| ==> Rank(p, e, k, ds[i]) < Rank(p, e, k, pending[0])
    ensures AllEnd(p, e, k, ds + pending[1..]) && Covered(p, e, k, v, visited', ds + pending[1..])
  {
    hide First, FirstOne, Rank, Threads, Ends;
    var rest, pending' := pending[1..], ds + pending[1..];
    FirstHits(p, e, k, ds);
    if FirstOne(p, e, k, v).Some? && !First(p, e, k, Threads(p, visited)).Some? {
      var j :| 0 <= j < |pending| && FirstOne(p, e, k, pending[j]).Some? && AllBelow(p, e, k, v, pending, j);
      assert Rank(p, e, k, pending[0]) < Rank(p, e, k, v);
      if j == 0 {
        var i :| 0 <= i < |ds| && FirstOne(p, e, k, ds[i]).Some?;
        assert FirstOne(p, e, k, pending'[i]).Some? && AllBelow(p, e, k, v, pending', i);
      } else {
        var i := |ds| + j - 1;
        forall h | 0 <= h <= i ensures Rank(p, e, k, pending'[h]) < Rank(p, e, k, v) {
          assert pending'[h] == if h < |ds| then ds[h] else pending[h - |ds| + 1];
        }
        assert FirstOne(p, e, k, pending'[i]).Some? && AllBelow(p, e, k, v, pending', i);
      }
    }
  }

  lemma CoverSelf(p: Code, e: Env, k: nat, c: Config, visited: seq<Config>, ds: seq<Config>, rest: seq<Config>)
    requires Ends(p, e, k, c) && AllEnd(p, e, k, ds) && AllEnd(p, e, k, rest)
    requires FirstOne(p, e, k, c).Some? ==> exists j :: 0 <= j < |ds| && FirstOne(p, e, k, ds[j]).Some?
    requires forall i :: 0 <= i < |ds| ==> Rank(p, e, k, ds[i]) < Rank(p, e, k, c)
    ensures AllEnd(p, e, k, ds + rest) && Covered(p, e, k, c, visited, ds + rest)
  {
    hide First, FirstOne, Rank, Threads, Ends;
    var pending := ds + rest;
    if FirstOne(p, e, k, c).Some? {
      var j :| 0 <= j < |ds| && FirstOne(p, e, k, ds[j]).Some?;
      assert FirstOne(p, e, k, pending[j]).Some? && AllBelow(p, e, k, c, pending, j);
    }
  }

  /** A pending thread that waits is visited, and joins the closure's threads. */
  lemma AddThread(p: Code, e: Env, k: nat, pos: nat, visited: seq<Config>, pending: seq<Config>)
    requires Nested(p) && NoBackrefs(p) && Closing(p, e, k, pos, visited, pending) && pending != []
    requires IsThread(p, pending[0])
    ensures var visited', pending' := visited + [pending[0]], pending[1..];
            Closing(p, e, k, pos, visited', pending') && Outlook(p, e, k, visited', pending') == Outlook(p, e, k, visited, pending)
  {
    hide First, FirstOne, Rank, Threads, Sound, Ends;
    var c, rest := pending[0], pending[1..];
    var visited' := visited + [c];
    ThreadsAppend(p, visited, c);
    FirstAppend(p, e, k, Threads(p, visited), [c]);
    FirstOfOne(p, e, k, c);
    FirstOfCons(p, e, k, c, rest);
    assert [c] + rest == pending;
    assert AllSound(p, e, k, pos, visited') && AllEnd(p, e, k, rest);
    forall i | 0 <= i < |visited'| ensures Covered(p, e, k, visited'[i], visited', rest) {
      if i < |visited| {
        CoverAdded(p, e, k, visited[i], visited, visited', pending);
      }
    }
  }

  lemma FirstOfOne(p: Code, e: Env, k: nat, c: Config)
    ensures First(p, e, k, [c]) == FirstOne(p, e, k, c)
  {
    assert [c][1..] == [];
  }

  lemma CoverAdded(p: Code, e: Env, k: nat, v: Config, visited: seq<Config>, visited': seq<Config>, pending: seq<Config>)
    requires pending != [] && Ends(p, e, k, v) && AllEnd(p, e, k, pending) && Covered(p, e, k, v, visited, pending)
    requires First(p, e, k, Threads(p, visited'))
             == OrElse(First(p, e, k, Threads(p, visited)), FirstOne(p, e, k, pending[0]))
    ensures AllEnd(p, e, k, pending[1..]) && Covered(p, e, k, v, visited', pending[1..])
  {
    hide First, FirstOne, Rank, Threads, Ends;
    var rest := pending[1..];
    if FirstOne(p, e, k, v).Some? && !First(p, e, k, Threads(p, visited')).Some? {
      var j :| 0 <= j < |pending| && FirstOne(p, e, k, pending[j]).Some? && AllBelow(p, e, k, v, pending, j);
      assert FirstOne(p, e, k, rest[j - 1]).Some? && AllBelow(p, e, k, v, rest, j - 1);
    }
  }

  /** A closure that has nothing pending can be resumed with another thread at its position. */
  lemma Resumed(p: Code, e: Env, k: nat, pos: nat, visited: seq<Config>, c: Config)
    requires Closing(p, e, k, pos, visited, []) && Sound(p, c) && c.s.pos == pos && Ends(p, e, k, c)
    ensures Closing(p, e, k, pos, visited, [c])
    ensures Outlook(p, e, k, visited, [c]) == OrElse(First(p, e, k, Threads(p, visited)), FirstOne(p, e, k, c))
  {
    hide First, FirstOne, Rank, Threads, Sound, Ends;
    FirstOfOne(p, e, k, c);
    forall i | 0 <= i < |visited| ensures Covered(p, e, k, visited[i], visited, [c]) {
      assert Covered(p, e, k, visited[i], visited, []);
    }
  }

  lemma {:induction false} ThreadsCons(p: Code, visited: seq<Config>)
    requires visited != []
    ensures Threads(p, visited) == (if IsThread(p, visited[0]) then [visited[0]] else []) + Threads(p, visited[1..])
    decreases |visited|
  {
    var n := |visited| - 1;
    if n > 0 {
      assert visited[..n][1..] == visited[1..][..n - 1];
      ThreadsCons(p, visited[..n]);
    } else {
      assert visited[..n] == [] && visited[1..] == [];
    }
  }

  /** A step bound under which every one of finitely many runs ends. */
  lemma {:induction false} CommonBound(p: Code, e: Env, css: seq<seq<Config>>, rss: seq<seq<State>>) returns (k: nat)
    requires |css| == |rss| && forall q :: 0 <= q < |css| ==> Yields(p, e, css[q], rss[q])
    ensures forall q :: 0 <= q < |css| ==> Run(p, e, k, css[q]) == Some(rss[q])
    decreases |css|
  {
    hide Run;
    if css == [] {
      k := 0;
    } else {
      var n := |css| - 1;
      var m := CommonBound(p, e, css[..n], rss[..n]);
      var j: nat :| Run(p, e, j, css[n]) == Some(rss[n]);
      k := m + j;
      RunLonger(p, e, j, k, css[n]);
      forall q | 0 <= q < n ensures Run(p, e, k, css[q]) == Some(rss[q]) {
        assert css[..n][q] == css[q];
        RunLonger(p, e, m, k, css[q]);
      }
    }
  }
}
