/** The two link collections, UserRoles and RolePrivileges, and the queries the handlers run
    on them. Both are sequences of edges in insertion (natural) order. */
module Edges {
  /** Document ids. */
  type Id = nat

  /** One link document: its own id, the owner id (user_id of a UserRoles document, role_id of a
      RolePrivileges document) and the peer (role_id, or the permission string). */
  datatype Edge<P> = Edge(id: Id, owner: Id, peer: P)

  /** Every edge id was drawn from the id counter before it reached n. */
  ghost predicate IdsBelow<P>(t: seq<Edge<P>>, n: nat)
  {
    forall e :: e in t ==> e.id < n
  }

  /** No two different edges share an id. */
  ghost predicate IdsDetermineEdges<P>(t: seq<Edge<P>>)
  {
    forall e1, e2 :: e1 in t && e2 in t && e1.id == e2.id ==> e1 == e2
  }

  /** find({ owner: owner }): the owner's edges, in table order. */
  function OwnedBy<P(!new)>(t: seq<Edge<P>>, owner: Id): (r: seq<Edge<P>>)
    ensures forall e :: e in r <==> e in t && e.owner == owner
    ensures |r| <= |t|
  {
    if t == [] then []
    else (if t[0].owner == owner then [t[0]] else []) + OwnedBy(t[1..], owner)
  }

  /** The peers of a list of edges (`.map(r => r.role_id)`). */
  function Peers<P>(t: seq<Edge<P>>): (r: seq<P>)
    ensures |r| == |t|
    ensures forall i :: 0 <= i < |t| ==> r[i] == t[i].peer
  {
    if t == [] then [] else [t[0].peer] + Peers(t[1..])
  }

  /** The ids of a list of edges (`.map(x => x._id)`), as the `$in` operand of a delete. */
  function IdSet<P>(t: seq<Edge<P>>): (r: set<Id>)
    ensures forall e :: e in t ==> e.id in r
    ensures forall x :: x in r ==> exists e :: e in t && e.id == x
  {
    set i | 0 <= i < |t| :: t[i].id
  }

  /** deleteMany({ _id: { $in: ids } }) */
  function DeleteIds<P(!new)>(t: seq<Edge<P>>, ids: set<Id>): (r: seq<Edge<P>>)
    ensures forall e :: e in r <==> e in t && e.id !in ids
  {
    if t == [] then []
    else (if t[0].id in ids then [] else [t[0]]) + DeleteIds(t[1..], ids)
  }

  /** deleteMany({ owner: owner }) */
  function DeleteOwned<P(!new)>(t: seq<Edge<P>>, owner: Id): (r: seq<Edge<P>>)
    ensures forall e :: e in r <==> e in t && e.owner != owner
  {
    if t == [] then []
    else (if t[0].owner == owner then [] else [t[0]]) + DeleteOwned(t[1..], owner)
  }

  /** deleteOne({ _id: { $in: ids } }): the first edge in table order whose id is listed goes. */
  function DeleteFirst<P>(t: seq<Edge<P>>, ids: set<Id>): (r: seq<Edge<P>>)
    ensures forall e :: e in r ==> e in t
  {
    if t == [] then []
    else if t[0].id in ids then t[1..]
    else [t[0]] + DeleteFirst(t[1..], ids)
  }

  /** The edges a loop of `new Edge({ owner, peer: peers[i] }).save()` appends, ids drawn
      from the counter starting at start. */
  function Link<P>(start: nat, owner: Id, peers: seq<P>): (r: seq<Edge<P>>)
    ensures |r| == |peers|
    ensures forall e :: e in r ==> e.owner == owner && start <= e.id < start + |peers|
  {
    seq(|peers|, i requires 0 <= i < |peers| => Edge(start + i, owner, peers[i]))
  }

  lemma {:induction false} DeleteFirstRemovesFirstMatch<P>(t: seq<Edge<P>>, ids: set<Id>, k: nat)
    requires k < |t| && t[k].id in ids
    requires forall j :: 0 <= j < k ==> t[j].id !in ids
    ensures DeleteFirst(t, ids) == t[..k] + t[k + 1..]
  {
    if k > 0 {
      DeleteFirstRemovesFirstMatch(t[1..], ids, k - 1);
      assert t[1..][..k - 1] == t[1..k];
      assert t[1..][k..] == t[k + 1..];
      assert [t[0]] + t[1..k] == t[..k];
    }
  }

  lemma {:induction false} DeleteFirstNoMatch<P>(t: seq<Edge<P>>, ids: set<Id>)
    requires forall e :: e in t ==> e.id !in ids
    ensures DeleteFirst(t, ids) == t
  {
    if t != [] {
      assert t[0] in t;
      DeleteFirstNoMatch(t[1..], ids);
    }
  }

  lemma {:induction false} DeleteNoIds<P(!new)>(t: seq<Edge<P>>)
    ensures DeleteIds(t, {}) == t
  {
    if t != [] {
      DeleteNoIds(t[1..]);
    }
  }

  lemma {:induction false} OwnedByAppend<P(!new)>(a: seq<Edge<P>>, b: seq<Edge<P>>, v: Id)
    ensures OwnedBy(a + b, v) == OwnedBy(a, v) + OwnedBy(b, v)
  {
    if a != [] {
      assert (a + b)[1..] == a[1..] + b;
      OwnedByAppend(a[1..], b, v);
    } else {
      assert a + b == b;
    }
  }

  lemma PeersAppend<P>(a: seq<Edge<P>>, b: seq<Edge<P>>)
    ensures Peers(a + b) == Peers(a) + Peers(b)
  {
  }

  /** A peer occurs in Peers(t) exactly when some edge of t carries it. */
  lemma PeersMembership<P>(t: seq<Edge<P>>)
    ensures forall p :: p in Peers(t) <==> exists e :: e in t && e.peer == p
  {
    forall p | p in Peers(t) ensures exists e :: e in t && e.peer == p {
      var i :| 0 <= i < |t| && Peers(t)[i] == p;
      assert t[i] in t;
    }
    forall p | exists e :: e in t && e.peer == p ensures p in Peers(t) {
      var e :| e in t && e.peer == p;
      var i :| 0 <= i < |t| && t[i] == e;
      assert Peers(t)[i] == p;
    }
  }

  /** The appended edges carry exactly the peers the loop was given, in order. */
  lemma PeersOfLink<P>(start: nat, owner: Id, peers: seq<P>)
    ensures Peers(Link(start, owner, peers)) == peers
  {
  }

  /** The appended edges all belong to the owner the loop was given. */
  lemma {:induction false} OwnedByLink<P(!new)>(start: nat, owner: Id, peers: seq<P>, v: Id)
    ensures OwnedBy(Link(start, owner, peers), v) == if v == owner then Link(start, owner, peers) else []
    decreases |peers|
  {
    if peers != [] {
      assert Link(start, owner, peers)[1..] == Link(start + 1, owner, peers[1..]);
      OwnedByLink(start + 1, owner, peers[1..], v);
    }
  }

  /** One more turn of a save loop appends one edge with the next id. */
  lemma LinkSnoc<P>(start: nat, owner: Id, peers: seq<P>, i: nat)
    requires i < |peers|
    ensures Link(start, owner, peers[..i + 1]) == Link(start, owner, peers[..i]) + [Edge(start + i, owner, peers[i])]
  {
  }

  /** Deleting by owner empties that owner's list and leaves every other owner's list as it was. */
  lemma {:induction false} OwnedByDeleteOwned<P(!new)>(t: seq<Edge<P>>, owner: Id, v: Id)
    ensures OwnedBy(DeleteOwned(t, owner), v) == if v == owner then [] else OwnedBy(t, v)
  {
    if t != [] {
      var rest := DeleteOwned(t[1..], owner);
      OwnedByDeleteOwned(t[1..], owner, v);
      assert OwnedBy(t, v) == (if t[0].owner == v then [t[0]] else []) + OwnedBy(t[1..], v);
      if t[0].owner != owner {
        assert DeleteOwned(t, owner) == [t[0]] + rest;
        assert ([t[0]] + rest)[1..] == rest;
      } else {
        assert DeleteOwned(t, owner) == rest;
      }
    }
  }

  /** After a save loop, the owner's peers are its old peers followed by the saved ones. */
  lemma PeersAfterLink<P(!new)>(t: seq<Edge<P>>, start: nat, owner: Id, peers: seq<P>)
    ensures Peers(OwnedBy(t + Link(start, owner, peers), owner)) == Peers(OwnedBy(t, owner)) + peers
  {
    OwnedByAppend(t, Link(start, owner, peers), owner);
    OwnedByLink(start, owner, peers, owner);
    PeersAppend(OwnedBy(t, owner), Link(start, owner, peers));
    PeersOfLink(start, owner, peers);
  }
}
