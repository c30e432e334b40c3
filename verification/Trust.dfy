/** Certificate path building and the signer resolvers made from it (as4/core/trust.py). */
module Trust {
  import opened Terms
  import opened Messages

  /** The certificates' own answers: `canIssue(c)` reads basicConstraints and keyUsage,
      `issued(c, i)` is a successful verify_directly_issued_by. */
  datatype Pki = Pki(canIssue: Certificate -> bool, issued: (Certificate, Certificate) -> bool)

  predicate Able(pki: Pki, c: Certificate, issuer: Certificate) {
    pki.canIssue(issuer) && pki.issued(c, issuer)
  }

  const MAXIMUM_CHAIN_DEPTH := 8

  // ---------------------------------------------------------------- issuer_of

  /** The first candidate that may issue and did issue `c`. */
  function IssuerOf(pki: Pki, c: Certificate, candidates: seq<Certificate>): (r: Option<Certificate>)
    ensures r.Some? ==> r.value in candidates && Able(pki, c, r.value)
    ensures r.None? ==> forall x :: x in candidates ==> !Able(pki, c, x)
  {
    if candidates == [] then None
    else if Able(pki, c, candidates[0]) then Some(candidates[0])
    else IssuerOf(pki, c, candidates[1..])
  }

  method FindIssuer(pki: Pki, c: Certificate, candidates: seq<Certificate>) returns (r: Option<Certificate>)
    ensures r == IssuerOf(pki, c, candidates)
  {
    for i := 0 to |candidates|
      invariant IssuerOf(pki, c, candidates) == IssuerOf(pki, c, candidates[i..])
    {
      if !pki.canIssue(candidates[i]) {
        continue;
      }
      if !pki.issued(c, candidates[i]) {
        continue;
      }
      return Some(candidates[i]);
    }
    r := None;
  }

  // ---------------------------------------------------------------- path_to_anchor

  datatype PathError = NoChain | TooDeep

  function Fresh(candidates: seq<Certificate>, path: seq<Certificate>): (r: seq<Certificate>)
    ensures forall x :: x in r <==> x in candidates && x !in path
  {
    if candidates == [] then []
    else (if candidates[0] !in path then [candidates[0]] else []) + Fresh(candidates[1..], path)
  }

  /** The search from a partial path. */
  function Search(pki: Pki, path: seq<Certificate>, anchors: seq<Certificate>, intermediates: seq<Certificate>,
                  maximumDepth: int)
    : Result<seq<Certificate>, PathError>
    requires path != []
    decreases maximumDepth - |path|
  {
    if |path| >= maximumDepth then Err(TooDeep)
    else
      var anchor := IssuerOf(pki, path[|path| - 1], anchors);
      if anchor.Some? then Ok(path + [anchor.value])
      else
        var intermediate := IssuerOf(pki, path[|path| - 1], Fresh(intermediates, path));
        if intermediate.None? then Err(NoChain)
        else Search(pki, path + [intermediate.value], anchors, intermediates, maximumDepth)
  }

  function PathTo(pki: Pki, leaf: Certificate, anchors: seq<Certificate>, intermediates: seq<Certificate>,
                  maximumDepth: int)
    : Result<seq<Certificate>, PathError>
  {
    Search(pki, [leaf], anchors, intermediates, maximumDepth)
  }

  method PathToAnchor(pki: Pki, leaf: Certificate, anchors: seq<Certificate>, intermediates: seq<Certificate>,
                      maximumDepth: int)
    returns (r: Result<seq<Certificate>, PathError>)
    ensures r == PathTo(pki, leaf, anchors, intermediates, maximumDepth)
  {
    var path := [leaf];
    while |path| < maximumDepth
      invariant path != []
      invariant Search(pki, path, anchors, intermediates, maximumDepth)
             == PathTo(pki, leaf, anchors, intermediates, maximumDepth)
      decreases maximumDepth - |path|
    {
      var anchor := FindIssuer(pki, path[|path| - 1], anchors);
      if anchor.Some? {
        return Ok(path + [anchor.value]);
      }
      var intermediate := FindIssuer(pki, path[|path| - 1], Fresh(intermediates, path));
      if intermediate.None? {
        return Err(NoChain);
      }
      path := path + [intermediate.value];
    }
    r := Err(TooDeep);
  }

  // ---------------------------------------------------------------- soundness

  /** Each certificate is issued by its successor, which may issue. */
  predicate Linked(pki: Pki, path: seq<Certificate>) {
    forall i :: 0 <= i < |path| - 1 ==> Able(pki, path[i], path[i + 1])
  }

  ghost predicate Distinct(path: seq<Certificate>) {
    forall i, j :: 0 <= i < j < |path| ==> path[i] != path[j]
  }

  /** A chain from the leaf to an anchor through intermediates. */
  ghost predicate Chain(pki: Pki, leaf: Certificate, anchors: seq<Certificate>, intermediates: seq<Certificate>,
                        path: seq<Certificate>) {
    && |path| >= 2
    && path[0] == leaf
    && path[|path| - 1] in anchors
    && Linked(pki, path)
    && forall i :: 0 < i < |path| - 1 ==> path[i] in intermediates
  }

  /** A partial path of the search: it starts at the leaf and grows by a fresh able intermediate whenever
      its last certificate has no able anchor. */
  ghost predicate Partial(pki: Pki, leaf: Certificate, anchors: seq<Certificate>, intermediates: seq<Certificate>,
                          path: seq<Certificate>)
    decreases |path|
  {
    path != [] &&
    if |path| == 1 then path[0] == leaf
    else
      var init, last := path[..|path| - 1], path[|path| - 1];
      && Partial(pki, leaf, anchors, intermediates, init)
      && IssuerOf(pki, init[|init| - 1], anchors).None?
      && Able(pki, init[|init| - 1], last)
      && last in intermediates
      && last !in init
  }

  lemma ExtendPartial(pki: Pki, leaf: Certificate, anchors: seq<Certificate>, intermediates: seq<Certificate>,
                      path: seq<Certificate>, next: Certificate)
    requires Partial(pki, leaf, anchors, intermediates, path)
    requires Able(pki, path[|path| - 1], next) && next in intermediates && next !in path
    requires IssuerOf(pki, path[|path| - 1], anchors).None?
    ensures Partial(pki, leaf, anchors, intermediates, path + [next])
  {
    assert (path + [next])[..|path|] == path;
  }

  /** A finished search: a partial path, then an able anchor. */
  ghost predicate Found(pki: Pki, leaf: Certificate, anchors: seq<Certificate>, intermediates: seq<Certificate>,
                        path: seq<Certificate>)
  {
    && |path| >= 2
    && Partial(pki, leaf, anchors, intermediates, path[..|path| - 1])
    && Able(pki, path[|path| - 2], path[|path| - 1])
    && path[|path| - 1] in anchors
  }

  lemma {:induction false} SearchIsSound(pki: Pki, leaf: Certificate, anchors: seq<Certificate>,
                                         intermediates: seq<Certificate>, maximumDepth: int, path: seq<Certificate>)
    requires Partial(pki, leaf, anchors, intermediates, path)
    ensures var r := Search(pki, path, anchors, intermediates, maximumDepth);
            r.Ok? ==> |r.value| <= maximumDepth && Found(pki, leaf, anchors, intermediates, r.value)
    decreases maximumDepth - |path|
  {
    if |path| < maximumDepth {
      var anchor := IssuerOf(pki, path[|path| - 1], anchors);
      if anchor.Some? {
        assert (path + [anchor.value])[..|path|] == path;
      } else {
        var next := IssuerOf(pki, path[|path| - 1], Fresh(intermediates, path));
        if next.Some? {
          ExtendPartial(pki, leaf, anchors, intermediates, path, next.value);
          SearchIsSound(pki, leaf, anchors, intermediates, maximumDepth, path + [next.value]);
        }
      }
    }
  }

  lemma {:induction false} PartialFacts(pki: Pki, leaf: Certificate, anchors: seq<Certificate>,
                                        intermediates: seq<Certificate>, path: seq<Certificate>)
    requires Partial(pki, leaf, anchors, intermediates, path)
    ensures path[0] == leaf && Linked(pki, path) && Distinct(path)
    ensures forall i :: 0 < i < |path| ==> path[i] in intermediates && path[i] !in anchors
    decreases |path|
  {
    if |path| > 1 {
      var init := path[..|path| - 1];
      PartialFacts(pki, leaf, anchors, intermediates, init);
      assert forall i :: 0 <= i < |init| ==> init[i] == path[i];
    }
  }

  /** Every returned path is a chain from the leaf to an anchor, of 2 to `maximumDepth` certificates.
      Its interior certificates are pairwise distinct intermediates that differ from the leaf and are
      not anchors. */
  lemma PathIsSound(pki: Pki, leaf: Certificate, anchors: seq<Certificate>, intermediates: seq<Certificate>,
                    maximumDepth: int)
    requires PathTo(pki, leaf, anchors, intermediates, maximumDepth).Ok?
    ensures var p := PathTo(pki, leaf, anchors, intermediates, maximumDepth).value;
            && 2 <= |p| <= maximumDepth
            && Chain(pki, leaf, anchors, intermediates, p)
            && Distinct(p[..|p| - 1])
            && forall i :: 0 < i < |p| - 1 ==> p[i] !in anchors
  {
    SearchIsSound(pki, leaf, anchors, intermediates, maximumDepth, [leaf]);
    var p := PathTo(pki, leaf, anchors, intermediates, maximumDepth).value;
    FoundIsChain(pki, leaf, anchors, intermediates, p);
  }

  lemma FoundIsChain(pki: Pki, leaf: Certificate, anchors: seq<Certificate>, intermediates: seq<Certificate>,
                     p: seq<Certificate>)
    requires Found(pki, leaf, anchors, intermediates, p)
    ensures Chain(pki, leaf, anchors, intermediates, p) && Distinct(p[..|p| - 1])
    ensures forall i :: 0 < i < |p| - 1 ==> p[i] !in anchors
  {
    var q := p[..|p| - 1];
    PartialFacts(pki, leaf, anchors, intermediates, q);
    assert forall i :: 0 <= i < |q| ==> q[i] == p[i];
  }

  // ---------------------------------------------------------------- completeness

  /** No certificate has two able issuers among anchors and intermediates together. */
  ghost predicate UniqueIssuers(pki: Pki, anchors: seq<Certificate>, intermediates: seq<Certificate>) {
    forall c, x, y ::
      x in anchors + intermediates && y in anchors + intermediates && Able(pki, c, x) && Able(pki, c, y) ==> x == y
  }

  /** A chain without repetition that ends at its first anchor. */
  ghost predicate Simple(anchors: seq<Certificate>, p: seq<Certificate>) {
    |p| >= 2 && Distinct(p[..|p| - 1]) && forall i :: 0 < i < |p| - 1 ==> p[i] !in anchors
  }

  /** Every chain can be cut down to a simple one: stop at the first anchor, and leave out cycles. */
  lemma {:induction false} SimplerChain(pki: Pki, leaf: Certificate, anchors: seq<Certificate>,
                                        intermediates: seq<Certificate>,
                                        p: seq<Certificate>) returns (q: seq<Certificate>)
    requires Chain(pki, leaf, anchors, intermediates, p)
    ensures Chain(pki, leaf, anchors, intermediates, q) && Simple(anchors, q) && |q| <= |p|
    decreases |p|
  {
    if i :| 0 < i < |p| - 1 && p[i] in anchors {
      q := SimplerChain(pki, leaf, anchors, intermediates, p[..i + 1]);
    } else if i, j :| 0 <= i < j < |p| - 1 && p[i] == p[j] {
      CutCycle(pki, leaf, anchors, intermediates, p, i, j);
      q := SimplerChain(pki, leaf, anchors, intermediates, p[..i + 1] + p[j + 1..]);
    } else {
      q := p;
    }
  }

  lemma CutCycle(pki: Pki, leaf: Certificate, anchors: seq<Certificate>, intermediates: seq<Certificate>,
                 p: seq<Certificate>, i: nat, j: nat)
    requires Chain(pki, leaf, anchors, intermediates, p) && i < j < |p| - 1 && p[i] == p[j]
    ensures Chain(pki, leaf, anchors, intermediates, p[..i + 1] + p[j + 1..])
  {
    var q := p[..i + 1] + p[j + 1..];
    forall k | 0 <= k < |q| - 1
      ensures Able(pki, q[k], q[k + 1])
    {
      if k < i {
        assert Able(pki, p[k], p[k + 1]);
      } else {
        assert Able(pki, p[k + j - i], p[k + j - i + 1]);
      }
    }
  }

  /** With unique issuers the search has no choice but to follow a simple chain. */
  lemma {:induction false} SearchFollows(pki: Pki, leaf: Certificate, anchors: seq<Certificate>,
                                         intermediates: seq<Certificate>, maximumDepth: int, p: seq<Certificate>,
                                         k: nat)
    requires UniqueIssuers(pki, anchors, intermediates)
    requires Chain(pki, leaf, anchors, intermediates, p) && Simple(anchors, p)
    requires 1 <= k < |p| <= maximumDepth
    ensures Search(pki, p[..k], anchors, intermediates, maximumDepth) == Ok(p)
    decreases |p| - k
  {
    var path := p[..k];
    assert Able(pki, p[k - 1], p[k]);
    var anchor := IssuerOf(pki, p[k - 1], anchors);
    if k == |p| - 1 {
      assert anchor == Some(p[k]);
      assert path + [p[k]] == p;
    } else {
      assert p[k] in intermediates && p[k] !in anchors;
      assert anchor.None?;
      var q := p[..|p| - 1];
      assert p[k] !in path by {
        forall i | 0 <= i < k
          ensures path[i] != p[k]
        {
          assert q[i] != q[k];
        }
      }
      var next := IssuerOf(pki, p[k - 1], Fresh(intermediates, path));
      assert p[k] in Fresh(intermediates, path);
      assert next == Some(p[k]);
      assert path + [p[k]] == p[..k + 1];
      SearchFollows(pki, leaf, anchors, intermediates, maximumDepth, p, k + 1);
    }
  }

  /** When issuers are unique the search succeeds exactly when a chain of at most `maximumDepth`
      certificates exists, cyclic issuing included, and what it returns is a shortest one. */
  lemma PathIsComplete(pki: Pki, leaf: Certificate, anchors: seq<Certificate>, intermediates: seq<Certificate>,
                       maximumDepth: int)
    requires UniqueIssuers(pki, anchors, intermediates)
    ensures PathTo(pki, leaf, anchors, intermediates, maximumDepth).Ok?
       <==> exists p :: Chain(pki, leaf, anchors, intermediates, p) && |p| <= maximumDepth
    ensures forall p :: Chain(pki, leaf, anchors, intermediates, p) && |p| <= maximumDepth ==>
                          |PathTo(pki, leaf, anchors, intermediates, maximumDepth).value| <= |p|
  {
    var r := PathTo(pki, leaf, anchors, intermediates, maximumDepth);
    if r.Ok? {
      PathIsSound(pki, leaf, anchors, intermediates, maximumDepth);
    }
    forall p | Chain(pki, leaf, anchors, intermediates, p) && |p| <= maximumDepth
      ensures r.Ok? && |r.value| <= |p|
    {
      var q := SimplerChain(pki, leaf, anchors, intermediates, p);
      assert q[..1] == [leaf];
      SearchFollows(pki, leaf, anchors, intermediates, maximumDepth, q, 1);
    }
  }

  // ---------------------------------------------------------------- the exact condition

  /** A partial path from which nothing more can be found: it is at the maximum depth, or its last
      certificate has neither an able anchor nor a fresh able intermediate. */
  ghost predicate Stuck(pki: Pki, leaf: Certificate, anchors: seq<Certificate>, intermediates: seq<Certificate>,
                        maximumDepth: int,
                        path: seq<Certificate>)
  {
    && path != [] && Partial(pki, leaf, anchors, intermediates, path)
    && (|path| >= maximumDepth || Exhausted(pki, anchors, intermediates, path))
  }

  /** The same intermediates, in any order and with any repetition. */
  ghost predicate SameMembers(a: seq<Certificate>, b: seq<Certificate>) {
    forall c :: c in a <==> c in b
  }

  lemma {:induction false} PartialIgnoresOrder(pki: Pki, leaf: Certificate, anchors: seq<Certificate>,
                                               intermediates: seq<Certificate>,
                                               order: seq<Certificate>, path: seq<Certificate>)
    requires SameMembers(intermediates, order) && Partial(pki, leaf, anchors, order, path)
    ensures Partial(pki, leaf, anchors, intermediates, path)
    decreases |path|
  {
    if |path| > 1 {
      PartialIgnoresOrder(pki, leaf, anchors, intermediates, order, path[..|path| - 1]);
    }
  }

  /** Where no partial path is stuck, the search cannot fail. */
  lemma {:induction false} UnstuckSearchSucceeds(pki: Pki, leaf: Certificate, anchors: seq<Certificate>,
                                                 intermediates: seq<Certificate>,
                                                 maximumDepth: int, order: seq<Certificate>, path: seq<Certificate>)
    requires SameMembers(intermediates, order) && path != [] && Partial(pki, leaf, anchors, order, path)
    requires forall p :: !Stuck(pki, leaf, anchors, intermediates, maximumDepth, p)
    ensures Search(pki, path, anchors, order, maximumDepth).Ok?
    decreases maximumDepth - |path|
  {
    PartialIgnoresOrder(pki, leaf, anchors, intermediates, order, path);
    assert !Stuck(pki, leaf, anchors, intermediates, maximumDepth, path);
    if IssuerOf(pki, path[|path| - 1], anchors).None? {
      var next := IssuerOf(pki, path[|path| - 1], Fresh(order, path));
      assert next.Some?;
      ExtendPartial(pki, leaf, anchors, order, path, next.value);
      UnstuckSearchSucceeds(pki, leaf, anchors, intermediates, maximumDepth, order, path + [next.value]);
    }
  }

  lemma {:induction false} FreshConcat(a: seq<Certificate>, b: seq<Certificate>, path: seq<Certificate>)
    ensures Fresh(a + b, path) == Fresh(a, path) + Fresh(b, path)
  {
    if a == [] {
      assert a + b == b;
    } else {
      assert (a + b)[1..] == a[1..] + b;
      FreshConcat(a[1..], b, path);
    }
  }

  /** Of a path's own later certificates, the first that is not yet on it is the next one. */
  lemma {:induction false} FreshIsNext(p: seq<Certificate>, i: nat, k: nat)
    requires Distinct(p) && i <= k < |p|
    ensures Fresh(p[i..], p[..k]) != [] && Fresh(p[i..], p[..k])[0] == p[k]
    decreases k - i
  {
    if i == k {
      assert p[k] !in p[..k];
    } else {
      assert p[..k][i] == p[i];
      assert p[i..][1..] == p[i + 1..];
      FreshIsNext(p, i + 1, k);
    }
  }

  lemma {:induction false} PartialPrefix(pki: Pki, leaf: Certificate, anchors: seq<Certificate>,
                                         intermediates: seq<Certificate>,
                                         p: seq<Certificate>, k: nat)
    requires Partial(pki, leaf, anchors, intermediates, p) && 1 <= k < |p|
    ensures IssuerOf(pki, p[k - 1], anchors).None? && Able(pki, p[k - 1], p[k])
    decreases |p|
  {
    if k < |p| - 1 {
      PartialPrefix(pki, leaf, anchors, intermediates, p[..|p| - 1], k);
    }
  }

  lemma NextIsTaken(pki: Pki, leaf: Certificate, anchors: seq<Certificate>, intermediates: seq<Certificate>,
                    p: seq<Certificate>, k: nat)
    requires Partial(pki, leaf, anchors, intermediates, p) && Distinct(p) && 1 <= k < |p|
    ensures IssuerOf(pki, p[k - 1], anchors).None?
    ensures IssuerOf(pki, p[k - 1], Fresh(p[1..] + intermediates, p[..k])) == Some(p[k])
  {
    PartialPrefix(pki, leaf, anchors, intermediates, p, k);
    FreshConcat(p[1..], intermediates, p[..k]);
    FreshIsNext(p, 1, k);
  }

  /** When the intermediates are listed in its own order first, the search follows a partial path to its end. */
  lemma {:induction false} SearchFollowsOrder(pki: Pki, leaf: Certificate, anchors: seq<Certificate>,
                                              intermediates: seq<Certificate>,
                                              maximumDepth: int, p: seq<Certificate>, k: nat)
    requires Stuck(pki, leaf, anchors, intermediates, maximumDepth, p) && 1 <= k <= |p|
    ensures Search(pki, p[..k], anchors, p[1..] + intermediates, maximumDepth).Err?
    decreases |p| - k
  {
    var order, path := p[1..] + intermediates, p[..k];
    PartialFacts(pki, leaf, anchors, intermediates, p);
    if k == |p| {
      assert path == p;
      EndIsStuck(pki, anchors, intermediates, order, p);
    } else if k < maximumDepth {
      NextIsTaken(pki, leaf, anchors, intermediates, p, k);
      assert path + [p[k]] == p[..k + 1];
      SearchFollowsOrder(pki, leaf, anchors, intermediates, maximumDepth, p, k + 1);
    }
  }

  lemma EndIsStuck(pki: Pki, anchors: seq<Certificate>, intermediates: seq<Certificate>, order: seq<Certificate>,
                   p: seq<Certificate>)
    requires p != [] && order == p[1..] + intermediates
    ensures Exhausted(pki, anchors, intermediates, p) ==>
              IssuerOf(pki, p[|p| - 1], anchors).None? && IssuerOf(pki, p[|p| - 1], Fresh(order, p)).None?
  {
    forall c | c in Fresh(order, p)
      ensures c in intermediates && c !in p
    {
      assert c in p[1..] ==> c in p;
    }
  }

  /** The exact condition: the search finds a path whatever the order of the intermediates exactly when no
      partial path is stuck. */
  lemma EveryOrderFindsAPath(pki: Pki, leaf: Certificate, anchors: seq<Certificate>, intermediates: seq<Certificate>,
                             maximumDepth: int)
    ensures (forall order :: SameMembers(intermediates, order) ==> PathTo(pki, leaf, anchors, order, maximumDepth).Ok?)
       <==> (forall p :: !Stuck(pki, leaf, anchors, intermediates, maximumDepth, p))
  {
    if forall p :: !Stuck(pki, leaf, anchors, intermediates, maximumDepth, p) {
      forall order | SameMembers(intermediates, order)
        ensures PathTo(pki, leaf, anchors, order, maximumDepth).Ok?
      {
        UnstuckSearchSucceeds(pki, leaf, anchors, intermediates, maximumDepth, order, [leaf]);
      }
    }
    forall p | Stuck(pki, leaf, anchors, intermediates, maximumDepth, p)
      ensures exists order :: SameMembers(intermediates, order) && PathTo(pki, leaf, anchors, order, maximumDepth).Err?
    {
      PartialFacts(pki, leaf, anchors, intermediates, p);
      SearchFollowsOrder(pki, leaf, anchors, intermediates, maximumDepth, p, 1);
      assert p[..1] == [leaf];
      OwnOrder(p, intermediates);
      assert SameMembers(intermediates, p[1..] + intermediates);
    }
  }

  lemma OwnOrder(p: seq<Certificate>, intermediates: seq<Certificate>)
    requires p != [] && forall i :: 0 < i < |p| ==> p[i] in intermediates
    ensures SameMembers(intermediates, p[1..] + intermediates)
  {
    forall c | c in p[1..]
      ensures c in intermediates
    {
      var k :| 0 <= k < |p[1..]| && p[1..][k] == c;
      assert p[k + 1] == c;
    }
  }

  /** Both `deadEnd` and `bridge` issued `leaf`; only `bridge` was issued by `anchor`. */
  function ForkedPki(leaf: Certificate, deadEnd: Certificate, bridge: Certificate, anchor: Certificate): Pki {
    Pki(c => true, (c, i) => (c == leaf && (i == deadEnd || i == bridge)) || (c == bridge && i == anchor))
  }

  /** Uniqueness is needed: the search never reconsiders the first able intermediate, so it misses a
      chain through a later one. */
  lemma GreedySearchMissesAChain(leaf: Certificate, deadEnd: Certificate, bridge: Certificate, anchor: Certificate)
    requires leaf != deadEnd && leaf != bridge && leaf != anchor && deadEnd != bridge && deadEnd != anchor
    requires bridge != anchor
    ensures Chain(ForkedPki(leaf, deadEnd, bridge, anchor), leaf, [anchor], [deadEnd, bridge], [leaf, bridge, anchor])
    ensures PathTo(ForkedPki(leaf, deadEnd, bridge, anchor), leaf, [anchor], [deadEnd, bridge], MAXIMUM_CHAIN_DEPTH)
         == Err(NoChain)
  {
    var pki := ForkedPki(leaf, deadEnd, bridge, anchor);
    var path := [leaf, deadEnd];
    assert Fresh([deadEnd, bridge], [leaf]) == [deadEnd] + Fresh([deadEnd, bridge][1..], [leaf]);
    assert IssuerOf(pki, leaf, Fresh([deadEnd, bridge], [leaf])) == Some(deadEnd);
    assert IssuerOf(pki, leaf, [anchor]).None? && IssuerOf(pki, deadEnd, [anchor]).None?;
    assert IssuerOf(pki, deadEnd, Fresh([deadEnd, bridge], path)).None?;
    assert Search(pki, path, [anchor], [deadEnd, bridge], MAXIMUM_CHAIN_DEPTH) == Err(NoChain);
    assert [leaf] + [deadEnd] == path;
  }

  // ---------------------------------------------------------------- the depth bound

  lemma {:induction false} DistinctFit(path: seq<Certificate>, universe: set<Certificate>)
    requires Distinct(path) && forall c :: c in path ==> c in universe
    ensures |path| <= |universe|
    decreases |path|
  {
    if path != [] {
      var last, init := path[|path| - 1], path[..|path| - 1];
      forall i | 0 <= i < |init|
        ensures init[i] in universe - {last}
      {
        assert path[i] in path && path[i] != last;
      }
      assert last in path;
      DistinctFit(init, universe - {last});
    }
  }

  lemma PartialFits(pki: Pki, leaf: Certificate, anchors: seq<Certificate>, intermediates: seq<Certificate>,
                    path: seq<Certificate>)
    requires Partial(pki, leaf, anchors, intermediates, path)
    ensures |path| <= |(set c | c in intermediates)| + 1
  {
    PartialFacts(pki, leaf, anchors, intermediates, path);
    DistinctFit(path[1..], set c | c in intermediates);
  }

  /** The last certificate of a partial path has no able anchor and no able fresh intermediate. */
  ghost predicate Exhausted(pki: Pki, anchors: seq<Certificate>, intermediates: seq<Certificate>,
                            path: seq<Certificate>)
    requires path != []
  {
    && (forall a :: a in anchors ==> !Able(pki, path[|path| - 1], a))
    && (forall i :: i in intermediates && i !in path ==> !Able(pki, path[|path| - 1], i))
  }

  lemma {:induction false} SearchEnds(pki: Pki, leaf: Certificate, anchors: seq<Certificate>,
                                      intermediates: seq<Certificate>,
                                      maximumDepth: int, path: seq<Certificate>)
    requires Partial(pki, leaf, anchors, intermediates, path)
    requires maximumDepth >= |(set c | c in intermediates)| + 2
    ensures var r := Search(pki, path, anchors, intermediates, maximumDepth);
            r.Err? ==>
              && r.error == NoChain
              && exists p :: p != [] && Partial(pki, leaf, anchors, intermediates, p)
                             && Exhausted(pki, anchors, intermediates, p)
    decreases maximumDepth - |path|
  {
    PartialFits(pki, leaf, anchors, intermediates, path);
    if IssuerOf(pki, path[|path| - 1], anchors).None? {
      var next := IssuerOf(pki, path[|path| - 1], Fresh(intermediates, path));
      if next.Some? {
        ExtendPartial(pki, leaf, anchors, intermediates, path, next.value);
        SearchEnds(pki, leaf, anchors, intermediates, maximumDepth, path + [next.value]);
      } else {
        assert Exhausted(pki, anchors, intermediates, path);
      }
    }
  }

  /** With room for every distinct intermediate, the leaf and an anchor, the depth error is unreachable:
      a failing search has run out of fresh intermediates, whatever the issuing relation. */
  lemma DepthBoundIsEnough(pki: Pki, leaf: Certificate, anchors: seq<Certificate>, intermediates: seq<Certificate>,
                           maximumDepth: int)
    requires maximumDepth >= |(set c | c in intermediates)| + 2
    ensures var r := PathTo(pki, leaf, anchors, intermediates, maximumDepth);
            r.Err? ==>
              && r.error == NoChain
              && exists p :: p != [] && Partial(pki, leaf, anchors, intermediates, p)
                             && Exhausted(pki, anchors, intermediates, p)
  {
    SearchEnds(pki, leaf, anchors, intermediates, maximumDepth, [leaf]);
  }

  // ---------------------------------------------------------------- resolvers

  /** The clock and the revocation hook, as one question about a certificate. */
  type Acceptable = Certificate -> bool

  function ChainResolution(pki: Pki, anchors: seq<Certificate>, intermediates: seq<Certificate>, acceptable: Acceptable,
                           maximumDepth: int, embedded: Option<Certificate>): Resolution
  {
    if embedded.None? then Untrusted
    else
      var path := PathTo(pki, embedded.value, anchors, intermediates, maximumDepth);
      if path.Err? || exists c | c in path.value :: !acceptable(c) then Untrusted else Trusted(embedded.value)
  }

  /** The resolver that certificate_chain returns, with its loop over the path. */
  method ResolveByChain(pki: Pki, anchors: seq<Certificate>, intermediates: seq<Certificate>, acceptable: Acceptable,
                        maximumDepth: int, embedded: Option<Certificate>) returns (r: Resolution)
    ensures r == ChainResolution(pki, anchors, intermediates, acceptable, maximumDepth, embedded)
  {
    if embedded.None? {
      return Untrusted;
    }
    var path := PathToAnchor(pki, embedded.value, anchors, intermediates, maximumDepth);
    if path.Err? {
      return Untrusted;
    }
    for i := 0 to |path.value|
      invariant forall c :: c in path.value[..i] ==> acceptable(c)
    {
      if !acceptable(path.value[i]) {
        return Untrusted;
      }
    }
    assert path.value[..|path.value|] == path.value;
    r := Trusted(embedded.value);
  }

  /** A certificate a chain resolver trusts is the embedded one, at the start of a chain of acceptable
      certificates to an anchor. */
  lemma ChainResolutionIsSound(pki: Pki, anchors: seq<Certificate>, intermediates: seq<Certificate>,
                               acceptable: Acceptable,
                               maximumDepth: int, embedded: Option<Certificate>)
    ensures var r := ChainResolution(pki, anchors, intermediates, acceptable, maximumDepth, embedded);
            r.Trusted? ==>
              && embedded == Some(r.certificate)
              && exists p :: Chain(pki, r.certificate, anchors, intermediates, p) && |p| <= maximumDepth
                             && forall c :: c in p ==> acceptable(c)
  {
    if embedded.Some? && PathTo(pki, embedded.value, anchors, intermediates, maximumDepth).Ok? {
      PathIsSound(pki, embedded.value, anchors, intermediates, maximumDepth);
    }
  }

  /** A chain that a resolver can trust: simple, short enough, and of acceptable certificates only. */
  ghost predicate Trustworthy(pki: Pki, leaf: Certificate, anchors: seq<Certificate>, intermediates: seq<Certificate>,
                              acceptable: Acceptable, maximumDepth: int, p: seq<Certificate>)
  {
    && Chain(pki, leaf, anchors, intermediates, p) && Simple(anchors, p) && |p| <= maximumDepth
    && forall c :: c in p ==> acceptable(c)
  }

  /** With unique issuers a certificate is trusted exactly when it is embedded and starts a trustworthy chain. */
  lemma ChainResolutionIsExact(pki: Pki, anchors: seq<Certificate>, intermediates: seq<Certificate>,
                               acceptable: Acceptable, maximumDepth: int, leaf: Certificate)
    requires UniqueIssuers(pki, anchors, intermediates)
    ensures ChainResolution(pki, anchors, intermediates, acceptable, maximumDepth, None) == Untrusted
    ensures ChainResolution(pki, anchors, intermediates, acceptable, maximumDepth, Some(leaf))
         == if exists p :: Trustworthy(pki, leaf, anchors, intermediates, acceptable, maximumDepth, p)
           then Trusted(leaf)
            else Untrusted
  {
    if p :| Trustworthy(pki, leaf, anchors, intermediates, acceptable, maximumDepth, p) {
      assert p[..1] == [leaf];
      SearchFollows(pki, leaf, anchors, intermediates, maximumDepth, p, 1);
    } else if PathTo(pki, leaf, anchors, intermediates, maximumDepth).Ok? {
      var p := PathTo(pki, leaf, anchors, intermediates, maximumDepth).value;
      PathIsSound(pki, leaf, anchors, intermediates, maximumDepth);
      assert !Trustworthy(pki, leaf, anchors, intermediates, acceptable, maximumDepth, p);
    }
  }

  /** Whatever the issuers: when no partial path is stuck and every certificate is acceptable, the embedded
      certificate is trusted. */
  lemma UnstuckIsTrusted(pki: Pki, anchors: seq<Certificate>, intermediates: seq<Certificate>, acceptable: Acceptable,
                         maximumDepth: int, leaf: Certificate)
    requires forall p :: !Stuck(pki, leaf, anchors, intermediates, maximumDepth, p)
    requires acceptable(leaf) && forall c :: c in anchors || c in intermediates ==> acceptable(c)
    ensures ChainResolution(pki, anchors, intermediates, acceptable, maximumDepth, Some(leaf)) == Trusted(leaf)
  {
    assert SameMembers(intermediates, intermediates);
    EveryOrderFindsAPath(pki, leaf, anchors, intermediates, maximumDepth);
    PathIsSound(pki, leaf, anchors, intermediates, maximumDepth);
    var p := PathTo(pki, leaf, anchors, intermediates, maximumDepth).value;
    forall c | c in p
      ensures acceptable(c)
    {
      var k :| 0 <= k < |p| && p[k] == c;
    }
  }

  /** The dictionary of pinned certificates: a later one replaces an earlier one of the same fingerprint. */
  function ByFingerprint(fingerprint: Certificate -> string, pinned: seq<Certificate>): map<string, Certificate> {
    if pinned == [] then map[]
    else
      var last := pinned[|pinned| - 1];
      ByFingerprint(fingerprint, pinned[..|pinned| - 1])[fingerprint(last) := last]
  }

  /** The resolver that pinned_certificates returns. */
  function PinnedResolution(fingerprint: Certificate -> string, pinned: seq<Certificate>, embedded: Option<Certificate>)
    : Resolution
  {
    var configured := ByFingerprint(fingerprint, pinned);
    if embedded.Some? && fingerprint(embedded.value) in configured then Trusted(configured[fingerprint(embedded.value)])
    else Untrusted
  }

  lemma {:induction false} PinnedByFingerprint(fingerprint: Certificate -> string, pinned: seq<Certificate>, f: string)
    ensures f in ByFingerprint(fingerprint, pinned) <==> exists c :: c in pinned && fingerprint(c) == f
    ensures f in ByFingerprint(fingerprint, pinned) ==>
              ByFingerprint(fingerprint, pinned)[f] in pinned && fingerprint(ByFingerprint(fingerprint, pinned)[f]) == f
  {
    if pinned != [] {
      var init, last := pinned[..|pinned| - 1], pinned[|pinned| - 1];
      PinnedByFingerprint(fingerprint, init, f);
      assert pinned == init + [last];
      assert last in pinned;
    }
  }

  /** A certificate is trusted exactly when a pinned one has its fingerprint; what is trusted is then the
      pinned one, which is the embedded one when fingerprints tell certificates apart. */
  lemma PinnedResolutionIsExact(fingerprint: Certificate -> string, pinned: seq<Certificate>,
                                embedded: Option<Certificate>)
    ensures var r := PinnedResolution(fingerprint, pinned, embedded);
            && (r.Trusted? <==>
                  embedded.Some? && exists c :: c in pinned && fingerprint(c) == fingerprint(embedded.value))
            && (r.Trusted? ==> r.certificate in pinned && fingerprint(r.certificate) == fingerprint(embedded.value))
            && (r.Trusted?
                && (forall c :: c in pinned && fingerprint(c) == fingerprint(embedded.value) ==> c == embedded.value)
                ==> r.certificate == embedded.value)
  {
    if embedded.Some? {
      PinnedByFingerprint(fingerprint, pinned, fingerprint(embedded.value));
    }
  }
}
