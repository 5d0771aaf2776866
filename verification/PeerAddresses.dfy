/**
 The adapter's two-way index between peer names and addresses, filled from a status response
 whose peers come in no particular order.
 */
module PeerAddresses {
  import opened Options
  import opened PeerIndex

  datatype Peer = Peer(name: string, addresses: seq<string>)

  /** Peers without an address are skipped; the others are stored under their first one. */
  function Stored(x: Index, peers: seq<Peer>): Index {
    if peers == [] then x
    else
      var init, last := Stored(x, peers[..|peers| - 1]), peers[|peers| - 1];
      if last.addresses == [] then init else Apply(init, Set(last.addresses[0], last.name))
  }

  class KnownPeers {
    var peers: map<string, string>
    var ips: map<string, string>

    ghost function View(): Index
      reads this
    {
      Index(peers, ips)
    }

    constructor ()
      ensures View() == Index(map[], map[])
    {
      peers, ips := map[], map[];
    }

    method StorePeer(peer: string, ip: string)
      modifies this
      ensures View() == Apply(old(View()), Set(ip, peer))
    {
      peers := peers[peer := ip];
      ips := ips[ip := peer];
    }

    method StorePeers(found: seq<Peer>)
      modifies this
      ensures View() == Stored(old(View()), found)
    {
      ghost var was := View();
      for k := 0 to |found|
        invariant View() == Stored(was, found[..k])
      {
        assert found[..k + 1][..k] == found[..k];
        if |found[k].addresses| > 0 {
          StorePeer(found[k].name, found[k].addresses[0]);
        }
      }
      assert found[..|found|] == found;
    }

    method GetIPByPeer(peer: string) returns (ip: Option<string>)
      ensures ip == Get(peers, peer)
    {
      ip := if peer in peers then Some(peers[peer]) else None;
    }

    method GetPeerByIP(ip: string) returns (peer: Option<string>)
      ensures peer == Get(ips, ip)
    {
      peer := if ip in ips then Some(ips[ip]) else None;
    }
  }

  // ----- What a name and an address find -------------------------------------------------------

  /** One side of the index: the key a peer is stored under and what the key finds. */
  type Side = Peer -> Option<(string, string)>

  function ByName(): Side {
    (p: Peer) => if p.addresses == [] then None else Some((p.name, p.addresses[0]))
  }

  function ByAddress(): Side {
    (p: Peer) => if p.addresses == [] then None else Some((p.addresses[0], p.name))
  }

  predicate Has(side: Side, p: Peer, key: string) {
    side(p).Some? && side(p).value.0 == key
  }

  /** What the last peer with this key stores. */
  function Last(side: Side, peers: seq<Peer>, key: string): Option<string> {
    if peers == [] then None
    else if Has(side, peers[|peers| - 1], key) then Some(side(peers[|peers| - 1]).value.1)
    else Last(side, peers[..|peers| - 1], key)
  }

  function OrElse(found: Option<string>, before: Option<string>): Option<string> {
    if found.Some? then found else before
  }

  /** A name finds the first address of the last peer of that name, an address the name of the last
      peer with that first address; or what they found before. */
  lemma {:induction false} LastIsFound(x: Index, peers: seq<Peer>, name: string, ip: string)
    ensures Get(Stored(x, peers).adapters, name) == OrElse(Last(ByName(), peers, name), Get(x.adapters, name))
    ensures Get(Stored(x, peers).hosts, ip) == OrElse(Last(ByAddress(), peers, ip), Get(x.hosts, ip))
  {
    if peers != [] {
      LastIsFound(x, peers[..|peers| - 1], name, ip);
    }
  }

  lemma {:induction false} LastIsOne(side: Side, peers: seq<Peer>, key: string)
    ensures Last(side, peers, key).Some? ==>
              exists p :: p in peers && Has(side, p, key) && Last(side, peers, key) == Some(side(p).value.1)
    ensures Last(side, peers, key).None? ==> forall p :: p in peers ==> !Has(side, p, key)
  {
    if peers != [] {
      var last := peers[|peers| - 1];
      if !Has(side, last, key) {
        LastIsOne(side, peers[..|peers| - 1], key);
        assert forall p :: p in peers <==> p in peers[..|peers| - 1] || p == last;
      }
    }
  }

  ghost predicate Agree(side: Side, peers: seq<Peer>, key: string) {
    forall p, q :: p in peers && q in peers && Has(side, p, key) && Has(side, q, key) ==>
      side(p).value.1 == side(q).value.1
  }

  lemma {:induction false} SameMembers(peers: seq<Peer>, order: seq<Peer>)
    requires multiset(order) == multiset(peers)
    ensures forall p :: p in order <==> p in peers
  {
    forall p
      ensures p in order <==> p in peers
    {
      assert p in order <==> p in multiset(order);
      assert p in peers <==> p in multiset(peers);
    }
  }

  lemma {:induction false} OrderDoesNotMatter(side: Side, peers: seq<Peer>, order: seq<Peer>, key: string)
    requires multiset(order) == multiset(peers) && Agree(side, peers, key)
    ensures Last(side, order, key) == Last(side, peers, key)
  {
    LastIsOne(side, peers, key);
    LastIsOne(side, order, key);
    SameMembers(peers, order);
  }

  function MovedLast(peers: seq<Peer>, k: nat): seq<Peer>
    requires k < |peers|
  {
    peers[..k] + peers[k + 1..] + [peers[k]]
  }

  lemma {:induction false} MovedLastIsAnOrder(peers: seq<Peer>, k: nat)
    requires k < |peers|
    ensures multiset(MovedLast(peers, k)) == multiset(peers)
  {
    assert peers == peers[..k] + [peers[k]] + peers[k + 1..];
  }

  ghost predicate OrderFree(side: Side, peers: seq<Peer>, key: string) {
    forall order: seq<Peer> :: multiset(order) == multiset(peers) ==> Last(side, order, key) == Last(side, peers, key)
  }

  /** What a key finds is independent of the order in which the peers are listed exactly when all
      peers stored under it agree.  For names these are the addressed peers of that name and their
      first addresses; for addresses the peers with that first address and their names. */
  lemma {:induction false} OrderFreeIff(side: Side, peers: seq<Peer>, key: string)
    ensures OrderFree(side, peers, key) <==> Agree(side, peers, key)
  {
    if Agree(side, peers, key) {
      forall order: seq<Peer> | multiset(order) == multiset(peers)
        ensures Last(side, order, key) == Last(side, peers, key)
      {
        OrderDoesNotMatter(side, peers, order, key);
      }
    }
    if OrderFree(side, peers, key) {
      forall p | p in peers && Has(side, p, key)
        ensures Last(side, peers, key) == Some(side(p).value.1)
      {
        var k :| 0 <= k < |peers| && peers[k] == p;
        MovedLastIsAnOrder(peers, k);
        assert MovedLast(peers, k)[|peers| - 1] == p && Last(side, MovedLast(peers, k), key) == Some(side(p).value.1);
      }
    }
  }
}
