/** The address tree in any state of a round: addresses name nodes, and prefixes name ancestors. */
module RoundTree {
  import opened Types
  import opened HlmacAddr
  import opened NodeModel
  import opened RoundLocal
  import opened Round
  import opened RoundInv
  import opened RandomOrder

  /** The address of a node that has joined. */
  function A(s: Sys, v: nat): Addr
    requires v < |s.nodes|
  {
    MyAddr(s.nodes[v].table)
  }

  function Par(s: Sys, v: nat): nat
    requires v < |s.hist|
  {
    s.hist[v].parent
  }

  /** `x` is a joined child of `v`. */
  predicate ChildOf(c: Config, s: Sys, x: nat, v: nat)
    requires x < |s.nodes| == |s.hist|
  {
    x != c.root && J(c, s, x) && Par(s, x) == v
  }

  lemma RootAddr(c: Config, s: Sys)
    requires Inv(c, s) && J(c, s, c.root)
    ensures A(s, c.root) == [1]
  {
    assert NodeInv(c, s, c.root);
  }

  lemma AddrNonEmpty(c: Config, s: Sys, v: nat)
    requires Inv(c, s) && v < c.n && J(c, s, v)
    ensures A(s, v) != [] && NonZero(A(s, v))
  {
    assert NodeInv(c, s, v);
  }

  /** The root has joined in every state that satisfies the invariant. */
  lemma RootJoined(c: Config, s: Sys)
    requires Inv(c, s)
    ensures J(c, s, c.root)
  {
    assert NodeInv(c, s, c.root);
  }

  lemma IdDistinct(g: seq<LinkId>, v: LinkId, w: LinkId)
    requires v in g && w in g && IdIn(g, v) == IdIn(g, w)
    ensures v == w
  {
    IdFound(g, v);
    IdFound(g, w);
  }

  lemma {:induction false} IdFound(g: seq<LinkId>, v: LinkId)
    requires v in g
    ensures 1 <= IdIn(g, v) <= |g| && g[IdIn(g, v) - 1] == v
  {
    if g[0] != v {
      assert v in g[1..];
      IdFound(g[1..], v);
    }
  }

  /** Two nodes never hold the same address. */
  lemma {:induction false} AddrInjective(c: Config, s: Sys, v: nat, w: nat)
    requires Inv(c, s) && v < c.n && w < c.n && J(c, s, v) && J(c, s, w) && A(s, v) == A(s, w)
    ensures v == w
    decreases |A(s, v)|
  {
    RootJoined(c, s);
    RootAddr(c, s);
    if v == c.root || w == c.root {
      var x := if v == c.root then w else v;
      if x != c.root {
        ParentFacts(c, s, x);
        AddrNonEmpty(c, s, Par(s, x));
      }
    } else {
      ParentFacts(c, s, v);
      ParentFacts(c, s, w);
      var pv, pw := Par(s, v), Par(s, w);
      assert A(s, pv) == A(s, v)[..|A(s, v)| - 1] == A(s, pw);
      AddrInjective(c, s, pv, pw);
      assert IdIn(c.nbrs[pv], v) == A(s, v)[|A(s, v)| - 1] == IdIn(c.nbrs[pw], w);
      assert v in c.nbrs[pv] && w in c.nbrs[pv];
      IdDistinct(c.nbrs[pv], v, w);
    }
  }

  /** Every non-empty prefix of an address is the address of an ancestor. */
  lemma {:induction false} Ancestor(c: Config, s: Sys, v: nat, l: nat) returns (x: nat)
    requires Inv(c, s) && v < c.n && J(c, s, v) && 1 <= l <= |A(s, v)|
    ensures x < c.n && J(c, s, x) && A(s, x) == A(s, v)[..l]
    decreases |A(s, v)|
  {
    if l == |A(s, v)| {
      x := v;
      assert A(s, v)[..l] == A(s, v);
    } else {
      RootJoined(c, s);
      RootAddr(c, s);
      ParentFacts(c, s, v);
      x := Ancestor(c, s, Par(s, v), l);
      assert A(s, v)[..l] == A(s, Par(s, v))[..l];
    }
  }

  /** Only the root holds an address of one id. */
  lemma OneIdIsRoot(c: Config, s: Sys, u: nat)
    requires Inv(c, s) && u < c.n && J(c, s, u) && |A(s, u)| == 1
    ensures u == c.root
  {
    if u != c.root {
      ParentFacts(c, s, u);
      AddrNonEmpty(c, s, Par(s, u));
    }
  }

  /** The child of `u` through which a proper extension of its address runs. */
  lemma ChildTowards(c: Config, s: Sys, u: nat, w: nat) returns (x: nat)
    requires Inv(c, s) && u < c.n && w < c.n && J(c, s, u) && J(c, s, w) && A(s, u) < A(s, w)
    ensures x < c.n && ChildOf(c, s, x, u) && A(s, x) <= A(s, w)
    ensures A(s, x) == A(s, w)[..|A(s, u)| + 1]
  {
    x := Ancestor(c, s, w, |A(s, u)| + 1);
    RootJoined(c, s);
    RootAddr(c, s);
    AddrNonEmpty(c, s, u);
    ParentFacts(c, s, x);
    assert A(s, Par(s, x)) == A(s, x)[..|A(s, u)|] == A(s, u);
    AddrInjective(c, s, Par(s, x), u);
  }

  /** Nodes with an address of at most `l` ids. */
  function Upto(c: Config, s: Sys, l: nat): set<nat>
    requires |s.nodes| == c.n
  {
    set x | 0 <= x < c.n && J(c, s, x) && |A(s, x)| <= l
  }

  lemma {:induction false} UptoGrows(c: Config, s: Sys, v: nat, l: nat)
    requires Inv(c, s) && v < c.n && J(c, s, v) && l <= |A(s, v)|
    ensures l <= |Upto(c, s, l)|
  {
    if l > 0 {
      UptoGrows(c, s, v, l - 1);
      var x := Ancestor(c, s, v, l);
      assert x in Upto(c, s, l) && x !in Upto(c, s, l - 1);
      SubsetCard(Upto(c, s, l - 1) + {x}, Upto(c, s, l));
    }
  }

  /** The nodes 0 .. n-1. */
  function Range(n: nat): (r: set<nat>)
    ensures |r| == n && forall x :: x in r <==> 0 <= x < n
  {
    if n == 0 then {} else Range(n - 1) + {n - 1}
  }

  /** No address is longer than the number of nodes. */
  lemma DepthBound(c: Config, s: Sys, v: nat)
    requires Inv(c, s) && v < c.n && J(c, s, v)
    ensures |A(s, v)| <= c.n
  {
    UptoGrows(c, s, v, |A(s, v)|);
    SubsetCard(Upto(c, s, |A(s, v)|), Range(c.n));
  }

  /** With tables as in the network the send loop ends at the receiver of a SetHLMAC and at the root. */
  lemma RecipientsFit(c: Config, nbrs: seq<Nbr>, v: nat, u: nat)
    requires ConfigOk(c) && v < c.n && Listed(nbrs, c.nbrs[v]) && (u in c.nbrs[v] || v == c.root)
    ensures SendEnds(nbrs, u)
  {
    assert TableOk(c, v);
    OthersLength(nbrs, u);
    if i :| 0 <= i < |c.nbrs[v]| && c.nbrs[v][i] == u {
      assert nbrs[i].addr == u;
    }
  }

  /**
   * At the receiver of any SetHLMAC on its way: a payload has room for two records of the assigned
   * address, and the send loop ends.
   */
  lemma PayloadsFit(c: Config, s: Sys, ch: Chan, j: nat, maxPayload: nat, macLen: nat)
    requires Inv(c, s) && ch.src < c.n && ch.dst < c.n && ch.kind == KSet
    requires j < |s.net(ch)| && s.net(ch)[j].status == InFlight
    requires maxPayload >= c.n + 8 + 2 * macLen
    ensures s.net(ch)[j].msg.SetHlmac?
    ensures maxPayload >= |s.net(ch)[j].msg.prefix + [s.net(ch)[j].msg.id]| + 7 + 2 * macLen
    ensures SendEnds(s.nodes[ch.dst].nbrs, ch.src)
  {
    UnderWay(c, s, ch, j);
    DepthBound(c, s, ch.src);
    assert NodeInv(c, s, ch.dst);
    RecipientsFit(c, s.nodes[ch.dst].nbrs, ch.dst, ch.src);
  }
}
