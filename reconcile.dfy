/** Association reconciliation (routes/users.js:80-97, routes/roles.js:59-76): from an owner's
    stored edges and the requested peer list, compute which edges are stale and which peers are
    new, then delete and insert. */
module Reconcile {
  import opened Edges

  /** removedRoles / removedPermissions: stored edges whose peer the request does not name. */
  function Removed<P(==,!new)>(s: seq<Edge<P>>, req: seq<P>): (r: seq<Edge<P>>)
    ensures forall e :: e in r <==> e in s && e.peer !in req
    ensures |r| <= |s|
  {
    if s == [] then []
    else (if s[0].peer !in req then [s[0]] else []) + Removed(s[1..], req)
  }

  /** The stored edges the request still names: what survives a full reconciliation. */
  function Kept<P(==,!new)>(s: seq<Edge<P>>, req: seq<P>): (r: seq<Edge<P>>)
    ensures forall e :: e in r <==> e in s && e.peer in req
  {
    if s == [] then []
    else (if s[0].peer in req then [s[0]] else []) + Kept(s[1..], req)
  }

  /** newRoles / newPermissions: requested peers not held yet, once per occurrence in the request. */
  function Added<P(==,!new)>(s: seq<Edge<P>>, req: seq<P>): (r: seq<P>)
    ensures forall x :: x in r <==> x in req && x !in Peers(s)
  {
    if req == [] then []
    else (if req[0] in Peers(s) then [] else [req[0]]) + Added(s, req[1..])
  }

  /** An edge of owner whose peer the request no longer names. */
  predicate Stale<P(==,!new)>(e: Edge<P>, owner: Id, req: seq<P>)
  {
    e.owner == owner && e.peer !in req
  }

  /** The table with every stale edge of owner gone. */
  function Detach<P(==,!new)>(t: seq<Edge<P>>, owner: Id, req: seq<P>): (r: seq<Edge<P>>)
  {
    if t == [] then []
    else (if Stale(t[0], owner, req) then [] else [t[0]]) + Detach(t[1..], owner, req)
  }

  /** The table with only the first stale edge of owner gone. */
  function DropFirstStale<P(==,!new)>(t: seq<Edge<P>>, owner: Id, req: seq<P>): (r: seq<Edge<P>>)
  {
    if t == [] then []
    else if Stale(t[0], owner, req) then t[1..]
    else [t[0]] + DropFirstStale(t[1..], owner, req)
  }

  /** routes/users.js:80-97 as written: deleteMany of the removed edges' ids, then one new edge
      per new peer, ids from the counter at start. */
  function ReplaceAll<P(==,!new)>(t: seq<Edge<P>>, owner: Id, req: seq<P>, start: nat): (r: seq<Edge<P>>)
    ensures forall e :: e in r ==> e in t || (e.owner == owner && e.peer in req && start <= e.id)
    ensures Removed(OwnedBy(t, owner), req) == [] ==> |t| <= |r| && r[..|t|] == t
  {
    var s := OwnedBy(t, owner);
    var removed := Removed(s, req);
    (if |removed| > 0 then DeleteIds(t, IdSet(removed)) else t) + Link(start, owner, Added(s, req))
  }

  /** routes/roles.js:59-76 as written: deleteOne over the removed edges' ids, then one new edge
      per new peer. */
  function ReplaceOne<P(==,!new)>(t: seq<Edge<P>>, owner: Id, req: seq<P>, start: nat): (r: seq<Edge<P>>)
    ensures forall e :: e in r ==> e in t || (e.owner == owner && e.peer in req && start <= e.id)
    ensures Removed(OwnedBy(t, owner), req) == [] ==> |t| <= |r| && r[..|t|] == t
  {
    var s := OwnedBy(t, owner);
    var removed := Removed(s, req);
    (if |removed| > 0 then DeleteFirst(t, IdSet(removed)) else t) + Link(start, owner, Added(s, req))
  }

  // ---------------------------------------------------------------------------------------
  // The removed / new computations

  /** A peer not held yet appears in the new list as often as the request names it; a held
      peer never does. */
  lemma {:induction false} AddedCount<P(!new)>(s: seq<Edge<P>>, req: seq<P>, x: P)
    ensures multiset(Added(s, req))[x] == if x in Peers(s) then 0 else multiset(req)[x]
  {
    if req != [] {
      AddedCount(s, req[1..], x);
      assert req == [req[0]] + req[1..];
    }
  }

  /** The stale and the surviving edges split the stored edges between them. */
  lemma {:induction false} KeptAndRemovedSplit<P(!new)>(s: seq<Edge<P>>, req: seq<P>)
    ensures multiset(Kept(s, req)) + multiset(Removed(s, req)) == multiset(s)
  {
    if s != [] {
      KeptAndRemovedSplit(s[1..], req);
      KeptRemovedCons(s, req);
      MultisetCons(s);
    }
  }

  lemma MultisetCons<T>(s: seq<T>)
    requires s != []
    ensures multiset(s) == multiset([s[0]]) + multiset(s[1..])
  {
    assert s == [s[0]] + s[1..];
  }

  /** One step of the split: the head edge goes to exactly one side. */
  lemma KeptRemovedCons<P(!new)>(s: seq<Edge<P>>, req: seq<P>)
    requires s != []
    ensures multiset(Kept(s, req)) + multiset(Removed(s, req))
         == multiset([s[0]]) + multiset(Kept(s[1..], req)) + multiset(Removed(s[1..], req))
  {
    var k, r := Kept(s[1..], req), Removed(s[1..], req);
    if s[0].peer in req {
      assert Kept(s, req) == [s[0]] + k;
      assert Removed(s, req) == r;
    } else {
      assert Kept(s, req) == k;
      assert Removed(s, req) == [s[0]] + r;
    }
  }

  lemma {:induction false} KeptIsStable<P(!new)>(s: seq<Edge<P>>, req: seq<P>)
    ensures Kept(Kept(s, req), req) == Kept(s, req)
  {
    if s != [] {
      KeptIsStable(s[1..], req);
      var k := Kept(s[1..], req);
      if s[0].peer in req {
        assert Kept(s, req) == [s[0]] + k;
        assert ([s[0]] + k)[1..] == k;
        assert Kept([s[0]] + k, req) == [s[0]] + Kept(k, req);
      } else {
        assert Kept(s, req) == k;
      }
    }
  }

  lemma {:induction false} KeptNothing<P(!new)>(s: seq<Edge<P>>)
    ensures Kept(s, []) == []
  {
    if s != [] {
      KeptNothing(s[1..]);
    }
  }

  lemma {:induction false} KeptAppend<P(!new)>(a: seq<Edge<P>>, b: seq<Edge<P>>, req: seq<P>)
    ensures Kept(a + b, req) == Kept(a, req) + Kept(b, req)
  {
    if a != [] {
      assert (a + b)[1..] == a[1..] + b;
      KeptAppend(a[1..], b, req);
    } else {
      assert a + b == b;
    }
  }

  /** No stored edge is stale, so nothing is removed. */
  lemma {:induction false} NothingRemoved<P(!new)>(s: seq<Edge<P>>, req: seq<P>)
    requires forall e :: e in s ==> e.peer in req
    ensures Removed(s, req) == []
  {
    if s != [] {
      assert s[0] in s;
      NothingRemoved(s[1..], req);
    }
  }

  /** Every requested peer is held, so nothing is new. */
  lemma {:induction false} NothingAdded<P(!new)>(s: seq<Edge<P>>, req: seq<P>)
    requires forall x :: x in req ==> x in Peers(s)
    ensures Added(s, req) == []
  {
    if req != [] {
      assert req[0] in req;
      NothingAdded(s, req[1..]);
    }
  }

  /** Whatever survives next to the new edges, the owner's peers are exactly the requested ones
      precisely when no stale edge survives. */
  lemma PeerSetAfter<P(!new)>(s: seq<Edge<P>>, x: seq<Edge<P>>, req: seq<P>)
    requires Kept(x, req) == Kept(s, req)
    ensures (forall p :: p in Peers(x) + Added(s, req) <==> p in req) <==> Removed(x, req) == []
  {
    PeersMembership(x);
    PeersMembership(s);
    if Removed(x, req) == [] {
      forall p ensures p in Peers(x) + Added(s, req) <==> p in req {
        if p in req && p !in Added(s, req) {
          var e :| e in s && e.peer == p;
          assert e in Kept(s, req);
        }
        if p in Peers(x) {
          var e :| e in x && e.peer == p;
          assert e !in Removed(x, req);
        }
      }
    } else {
      var e := Removed(x, req)[0];
      assert e in Removed(x, req);
      assert e.peer in Peers(x) + Added(s, req);
    }
  }

  // ---------------------------------------------------------------------------------------
  // From ids back to edges

  /** With ids unique, the ids of the removed edges pick out exactly the owner's stale edges. */
  lemma RemovedIdsAreStale<P(!new)>(t: seq<Edge<P>>, owner: Id, req: seq<P>)
    requires IdsDetermineEdges(t)
    ensures forall e :: e in t ==> (e.id in IdSet(Removed(OwnedBy(t, owner), req)) <==> Stale(e, owner, req))
  {
    var removed := Removed(OwnedBy(t, owner), req);
    forall e | e in t ensures e.id in IdSet(removed) <==> Stale(e, owner, req) {
      if e.id in IdSet(removed) {
        var e' :| e' in removed && e'.id == e.id;
        assert e' == e;
      }
      if Stale(e, owner, req) {
        assert e in removed;
      }
    }
  }

  lemma {:induction false} DeleteIdsIsDetach<P(!new)>(t: seq<Edge<P>>, ids: set<Id>, owner: Id, req: seq<P>)
    requires forall e :: e in t ==> (e.id in ids <==> Stale(e, owner, req))
    ensures DeleteIds(t, ids) == Detach(t, owner, req)
  {
    if t != [] {
      assert t[0] in t;
      DeleteIdsIsDetach(t[1..], ids, owner, req);
    }
  }

  lemma {:induction false} DeleteFirstIsDropFirstStale<P(!new)>(t: seq<Edge<P>>, ids: set<Id>, owner: Id, req: seq<P>)
    requires forall e :: e in t ==> (e.id in ids <==> Stale(e, owner, req))
    ensures DeleteFirst(t, ids) == DropFirstStale(t, owner, req)
  {
    if t != [] {
      assert t[0] in t;
      DeleteFirstIsDropFirstStale(t[1..], ids, owner, req);
    }
  }

  /** Detaching touches only the owner's stale edges. */
  lemma {:induction false} OwnedByDetach<P(!new)>(t: seq<Edge<P>>, owner: Id, req: seq<P>, v: Id)
    ensures OwnedBy(Detach(t, owner, req), v) == if v == owner then Kept(OwnedBy(t, owner), req) else OwnedBy(t, v)
  {
    if t != [] {
      OwnedByDetach(t[1..], owner, req, v);
      if Stale(t[0], owner, req) {
        OwnedByDetachStale(t, owner, req, v);
      } else {
        OwnedByDetachKeep(t, owner, req, v);
      }
    }
  }

  /** Induction step of OwnedByDetach when the head edge is stale. */
  lemma OwnedByDetachStale<P(!new)>(t: seq<Edge<P>>, owner: Id, req: seq<P>, v: Id)
    requires t != [] && Stale(t[0], owner, req)
    requires OwnedBy(Detach(t[1..], owner, req), v)
          == if v == owner then Kept(OwnedBy(t[1..], owner), req) else OwnedBy(t[1..], v)
    ensures OwnedBy(Detach(t, owner, req), v) == if v == owner then Kept(OwnedBy(t, owner), req) else OwnedBy(t, v)
  {
    assert Detach(t, owner, req) == Detach(t[1..], owner, req);
    if v == owner {
      assert OwnedBy(t, owner) == [t[0]] + OwnedBy(t[1..], owner);
      KeptAppend([t[0]], OwnedBy(t[1..], owner), req);
      assert Kept([t[0]], req) == [];
    } else {
      assert OwnedBy(t, v) == OwnedBy(t[1..], v);
    }
  }

  /** Induction step of OwnedByDetach when the head edge survives. */
  lemma OwnedByDetachKeep<P(!new)>(t: seq<Edge<P>>, owner: Id, req: seq<P>, v: Id)
    requires t != [] && !Stale(t[0], owner, req)
    requires OwnedBy(Detach(t[1..], owner, req), v)
          == if v == owner then Kept(OwnedBy(t[1..], owner), req) else OwnedBy(t[1..], v)
    ensures OwnedBy(Detach(t, owner, req), v) == if v == owner then Kept(OwnedBy(t, owner), req) else OwnedBy(t, v)
  {
    var rest := Detach(t[1..], owner, req);
    assert Detach(t, owner, req) == [t[0]] + rest;
    OwnedByAppend([t[0]], rest, v);
    OwnedByAppend([t[0]], t[1..], v);
    assert [t[0]] + t[1..] == t;
    if v == owner {
      KeptAppend(OwnedBy([t[0]], owner), OwnedBy(t[1..], owner), req);
      assert Kept(OwnedBy([t[0]], owner), req) == OwnedBy([t[0]], owner);
    }
  }

  /** Dropping the first stale edge of the table drops the first stale edge of the owner's list. */
  lemma {:induction false} OwnedByDropFirstStale<P(!new)>(t: seq<Edge<P>>, owner: Id, req: seq<P>)
    ensures OwnedBy(DropFirstStale(t, owner, req), owner) == DropFirstStale(OwnedBy(t, owner), owner, req)
  {
    if t != [] {
      var tail := OwnedBy(t[1..], owner);
      if Stale(t[0], owner, req) {
        assert OwnedBy(t, owner) == [t[0]] + tail;
        assert ([t[0]] + tail)[1..] == tail;
      } else {
        var rest := DropFirstStale(t[1..], owner, req);
        assert DropFirstStale(t, owner, req) == [t[0]] + rest;
        OwnedByDropFirstStale(t[1..], owner, req);
        assert ([t[0]] + rest)[1..] == rest;
        if t[0].owner == owner {
          assert OwnedBy(t, owner) == [t[0]] + tail;
          assert ([t[0]] + tail)[1..] == tail;
          assert DropFirstStale([t[0]] + tail, owner, req) == [t[0]] + DropFirstStale(tail, owner, req);
          assert OwnedBy([t[0]] + rest, owner) == [t[0]] + OwnedBy(rest, owner);
        } else {
          assert OwnedBy(t, owner) == tail;
          assert OwnedBy([t[0]] + rest, owner) == OwnedBy(rest, owner);
        }
      }
    }
  }

  /** Dropping a stale edge of owner leaves every other owner's edges alone. */
  lemma {:induction false} OwnedByDropFirstStaleOther<P(!new)>(t: seq<Edge<P>>, owner: Id, req: seq<P>, v: Id)
    requires v != owner
    ensures OwnedBy(DropFirstStale(t, owner, req), v) == OwnedBy(t, v)
  {
    if t != [] {
      if !Stale(t[0], owner, req) {
        var rest := DropFirstStale(t[1..], owner, req);
        assert DropFirstStale(t, owner, req) == [t[0]] + rest;
        OwnedByDropFirstStaleOther(t[1..], owner, req, v);
        assert ([t[0]] + rest)[1..] == rest;
      }
    }
  }

  /** Which edge DropFirstStale removes: the first stale one, or none when there is none. */
  lemma {:induction false} DropFirstStaleRemovesFirst<P(!new)>(t: seq<Edge<P>>, owner: Id, req: seq<P>, k: nat)
    requires k < |t| && Stale(t[k], owner, req)
    requires forall j :: 0 <= j < k ==> !Stale(t[j], owner, req)
    ensures DropFirstStale(t, owner, req) == t[..k] + t[k + 1..]
  {
    if k > 0 {
      DropFirstStaleRemovesFirst(t[1..], owner, req, k - 1);
      assert t[1..][..k - 1] == t[1..k];
      assert t[1..][k..] == t[k + 1..];
      assert [t[0]] + t[1..k] == t[..k];
    }
  }

  /** On one owner's edges, dropping the first stale edge keeps every still-named edge and
      leaves one stale edge fewer. */
  lemma {:induction false} DropFirstStaleCounts<P(!new)>(s: seq<Edge<P>>, owner: Id, req: seq<P>)
    requires forall e :: e in s ==> e.owner == owner
    ensures Kept(DropFirstStale(s, owner, req), req) == Kept(s, req)
    ensures |Removed(DropFirstStale(s, owner, req), req)| == if |Removed(s, req)| > 0 then |Removed(s, req)| - 1 else 0
  {
    if s != [] {
      assert s[0] in s;
      if !Stale(s[0], owner, req) {
        DropFirstStaleCounts(s[1..], owner, req);
        var rest := DropFirstStale(s[1..], owner, req);
        assert ([s[0]] + rest)[1..] == rest;
      }
    }
  }

  // ---------------------------------------------------------------------------------------
  // Effect of the user-role reconciliation (deleteMany)

  lemma ReplaceAllOwnedBy<P(!new)>(t: seq<Edge<P>>, owner: Id, req: seq<P>, start: nat, v: Id)
    requires IdsDetermineEdges(t)
    ensures OwnedBy(ReplaceAll(t, owner, req, start), v)
         == if v == owner
            then Kept(OwnedBy(t, owner), req) + Link(start, owner, Added(OwnedBy(t, owner), req))
            else OwnedBy(t, v)
  {
    var s := OwnedBy(t, owner);
    var removed := Removed(s, req);
    var added := Added(s, req);
    RemovedIdsAreStale(t, owner, req);
    DeleteIdsIsDetach(t, IdSet(removed), owner, req);
    if |removed| == 0 {
      assert IdSet(removed) == {};
      DeleteNoIds(t);
    }
    OwnedByAppend(Detach(t, owner, req), Link(start, owner, added), v);
    OwnedByDetach(t, owner, req, v);
    OwnedByLink(start, owner, added, v);
  }

  /** After a user update with a roles array, the user's role set is the requested set (an
      empty array leaves the user with no role), and the multiset of role ids is the surviving
      edges plus one per new request entry. */
  lemma ReplaceAllEffect<P(!new)>(t: seq<Edge<P>>, owner: Id, req: seq<P>, start: nat)
    requires IdsDetermineEdges(t)
    ensures forall p :: p in Peers(OwnedBy(ReplaceAll(t, owner, req, start), owner)) <==> p in req
    ensures multiset(Peers(OwnedBy(ReplaceAll(t, owner, req, start), owner)))
         == multiset(Peers(Kept(OwnedBy(t, owner), req))) + multiset(Added(OwnedBy(t, owner), req))
  {
    var s := OwnedBy(t, owner);
    var kept := Kept(s, req);
    var added := Added(s, req);
    ReplaceAllOwnedBy(t, owner, req, start, owner);
    PeersAppend(kept, Link(start, owner, added));
    PeersOfLink(start, owner, added);
    KeptIsStable(s, req);
    PeerSetAfter(s, kept, req);
  }

  /** An empty roles array detaches the user from every role. */
  lemma ReplaceAllWithNothing<P(!new)>(t: seq<Edge<P>>, owner: Id, start: nat)
    requires IdsDetermineEdges(t)
    ensures OwnedBy(ReplaceAll(t, owner, [], start), owner) == []
  {
    ReplaceAllOwnedBy(t, owner, [], start, owner);
    KeptNothing(OwnedBy(t, owner));
  }

  /** A user update never touches another user's UserRoles documents. */
  lemma ReplaceAllLeavesOthers<P(!new)>(t: seq<Edge<P>>, owner: Id, req: seq<P>, start: nat)
    requires IdsDetermineEdges(t)
    ensures forall v :: v != owner ==> OwnedBy(ReplaceAll(t, owner, req, start), v) == OwnedBy(t, v)
  {
    forall v | v != owner ensures OwnedBy(ReplaceAll(t, owner, req, start), v) == OwnedBy(t, v) {
      ReplaceAllOwnedBy(t, owner, req, start, v);
    }
  }

  /** Reconciling a second time with the same request finds nothing to delete or insert. */
  lemma ReplaceAllIdempotent<P(!new)>(t: seq<Edge<P>>, owner: Id, req: seq<P>, start: nat)
    requires IdsDetermineEdges(t)
    ensures Removed(OwnedBy(ReplaceAll(t, owner, req, start), owner), req) == []
    ensures Added(OwnedBy(ReplaceAll(t, owner, req, start), owner), req) == []
    ensures forall start' :: ReplaceAll(ReplaceAll(t, owner, req, start), owner, req, start') == ReplaceAll(t, owner, req, start)
  {
    var after := OwnedBy(ReplaceAll(t, owner, req, start), owner);
    ReplaceAllEffect(t, owner, req, start);
    PeersMembership(after);
    forall e | e in after ensures e.peer in req {
      assert e.peer in Peers(after);
    }
    NothingRemoved(after, req);
    NothingAdded(after, req);
    forall start' ensures Link(start', owner, Added(after, req)) == [] { }
  }

  // ---------------------------------------------------------------------------------------
  // Effect of the role-permission reconciliation (deleteOne)

  lemma ReplaceOneOwnedBy<P(!new)>(t: seq<Edge<P>>, owner: Id, req: seq<P>, start: nat, v: Id)
    requires IdsDetermineEdges(t)
    ensures OwnedBy(ReplaceOne(t, owner, req, start), v)
         == if v == owner
            then DropFirstStale(OwnedBy(t, owner), owner, req) + Link(start, owner, Added(OwnedBy(t, owner), req))
            else OwnedBy(t, v)
  {
    var s := OwnedBy(t, owner);
    var removed := Removed(s, req);
    var added := Added(s, req);
    RemovedIdsAreStale(t, owner, req);
    DeleteFirstIsDropFirstStale(t, IdSet(removed), owner, req);
    if |removed| == 0 {
      forall e | e in t ensures !Stale(e, owner, req) {
        assert e in removed <==> e in OwnedBy(t, owner) && e.peer !in req;
      }
      NoStaleNoDrop(t, owner, req);
    }
    OwnedByAppend(DropFirstStale(t, owner, req), Link(start, owner, added), v);
    if v == owner {
      OwnedByDropFirstStale(t, owner, req);
    } else {
      OwnedByDropFirstStaleOther(t, owner, req, v);
    }
    OwnedByLink(start, owner, added, v);
  }

  lemma {:induction false} NoStaleNoDrop<P(!new)>(t: seq<Edge<P>>, owner: Id, req: seq<P>)
    requires forall e :: e in t ==> !Stale(e, owner, req)
    ensures DropFirstStale(t, owner, req) == t
  {
    if t != [] {
      assert t[0] in t;
      NoStaleNoDrop(t[1..], owner, req);
    }
  }

  /** After a role update with a non-empty permissions array: held permissions still requested
      stay, one stale edge at most is gone, and the role's
      permission set is the requested set exactly when at most one stale edge existed. */
  lemma ReplaceOneEffect<P(!new)>(t: seq<Edge<P>>, owner: Id, req: seq<P>, start: nat)
    requires IdsDetermineEdges(t)
    ensures forall e :: e in OwnedBy(t, owner) && e.peer in req ==> e in OwnedBy(ReplaceOne(t, owner, req, start), owner)
    ensures |Removed(OwnedBy(ReplaceOne(t, owner, req, start), owner), req)|
         == if |Removed(OwnedBy(t, owner), req)| > 0 then |Removed(OwnedBy(t, owner), req)| - 1 else 0
    ensures (forall p :: p in Peers(OwnedBy(ReplaceOne(t, owner, req, start), owner)) <==> p in req)
        <==> |Removed(OwnedBy(t, owner), req)| <= 1
    ensures multiset(Peers(OwnedBy(ReplaceOne(t, owner, req, start), owner)))
         == multiset(Peers(DropFirstStale(OwnedBy(t, owner), owner, req))) + multiset(Added(OwnedBy(t, owner), req))
  {
    var s := OwnedBy(t, owner);
    var dropped := DropFirstStale(s, owner, req);
    var added := Added(s, req);
    var link := Link(start, owner, added);
    ReplaceOneOwnedBy(t, owner, req, start, owner);
    DropFirstStaleCounts(s, owner, req);
    PeersAppend(dropped, link);
    PeersOfLink(start, owner, added);
    PeerSetAfter(s, dropped, req);
    OwnedByLink(start, owner, added, owner);
    RemovedOfLinkIsEmpty(start, owner, added, s, req);
    RemovedAppend(dropped, link, req);
    forall e | e in s && e.peer in req ensures e in dropped + link {
      assert e in Kept(s, req);
    }
  }

  /** A role update never touches another role's RolePrivileges documents. */
  lemma ReplaceOneLeavesOthers<P(!new)>(t: seq<Edge<P>>, owner: Id, req: seq<P>, start: nat)
    requires IdsDetermineEdges(t)
    ensures forall v :: v != owner ==> OwnedBy(ReplaceOne(t, owner, req, start), v) == OwnedBy(t, v)
  {
    forall v | v != owner ensures OwnedBy(ReplaceOne(t, owner, req, start), v) == OwnedBy(t, v) {
      ReplaceOneOwnedBy(t, owner, req, start, v);
    }
  }

  lemma RemovedOfLinkIsEmpty<P(!new)>(start: nat, owner: Id, added: seq<P>, s: seq<Edge<P>>, req: seq<P>)
    requires added == Added(s, req)
    ensures Removed(Link(start, owner, added), req) == []
  {
    var link := Link(start, owner, added);
    forall e | e in link ensures e.peer in req {
      var i :| 0 <= i < |link| && link[i] == e;
      assert added[i] in added;
    }
    NothingRemoved(link, req);
  }

  lemma {:induction false} RemovedAppend<P(!new)>(a: seq<Edge<P>>, b: seq<Edge<P>>, req: seq<P>)
    ensures Removed(a + b, req) == Removed(a, req) + Removed(b, req)
  {
    if a != [] {
      assert (a + b)[1..] == a[1..] + b;
      RemovedAppend(a[1..], b, req);
    } else {
      assert a + b == b;
    }
  }
}
