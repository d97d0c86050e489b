/** Every step of a round keeps the invariant. */
module RoundInv {
  import opened Types
  import opened HlmacAddr
  import opened NodeModel
  import opened RoundLocal
  import opened Round

  // ---- counting the neighbours heard ----

  lemma SubsetCard(a: set<LinkId>, b: set<LinkId>)
    requires a <= b
    ensures |a| <= |b|
  {
    assert b == a + (b - a);
  }

  /** The counts are in order, and short of everyone while someone is unheard. */
  lemma CardBounds(h: Hist, mine: Addr, nb: set<LinkId>)
    requires CardInv(h, mine, nb)
    ensures h.nOutside <= h.nGiven <= h.nLoad <= |nb| && h.nGiven <= h.nShare <= |nb|
  {
    SubsetCard(Outside(h, mine), h.given.Keys);
    SubsetCard(h.given.Keys, h.given.Keys + h.loads.Keys);
    SubsetCard(h.given.Keys, h.given.Keys + h.shares.Keys);
    SubsetCard(h.given.Keys + h.loads.Keys, nb);
    SubsetCard(h.given.Keys + h.shares.Keys, nb);
  }

  lemma AddOne(s: set<LinkId>, t: set<LinkId>, a: LinkId)
    requires t == s + {a} && a !in s
    ensures |t| == |s| + 1
  {
  }

  lemma OutsideSet(h: Hist, mine: Addr, a: LinkId, addr: Addr, size: nat)
    requires a !in h.given
    ensures var t := Outside(HeardSet(h, mine, a, addr, size), mine);
            if ProperPrefix(mine, addr) then t == Outside(h, mine) else t == Outside(h, mine) + {a}
  {
  }

  lemma KeysAdd<T>(m: map<LinkId, T>, a: LinkId, x: T)
    ensures m[a := x].Keys == m.Keys + {a}
  {
  }

  /** A new element counts once on either side of a union. */
  lemma UnionAdd(s: set<LinkId>, t: set<LinkId>, a: LinkId)
    requires a !in s && a !in t
    ensures |(s + {a}) + t| == |s + t| + 1 && |s + (t + {a})| == |s + t| + 1
  {
    assert (s + {a}) + t == (s + t) + {a};
    assert s + (t + {a}) == (s + t) + {a};
    AddOne(s + t, (s + t) + {a}, a);
  }

  /** A new giver counts once everywhere. */
  lemma NewGiver(given: set<LinkId>, loads: set<LinkId>, shares: set<LinkId>, nb: set<LinkId>, a: LinkId)
    requires given <= nb && a in nb && a !in given && a !in loads && a !in shares && given !! loads && given !! shares
    ensures given + {a} <= nb && given + {a} !! loads && given + {a} !! shares
    ensures |given + {a}| == |given| + 1
    ensures |(given + {a}) + loads| == |given + loads| + 1 && |(given + {a}) + shares| == |given + shares| + 1
  {
    AddOne(given, given + {a}, a);
    UnionAdd(given, loads, a);
    UnionAdd(given, shares, a);
  }

  lemma CardSet(h: Hist, mine: Addr, nb: set<LinkId>, a: LinkId, addr: Addr)
    requires CardInv(h, mine, nb) && a in nb && a !in h.given && a !in h.loads && a !in h.shares
    ensures CardInv(HeardSet(h, mine, a, addr, |nb|), mine, nb)
  {
    var h' := HeardSet(h, mine, a, addr, |nb|);
    NewGiver(h.given.Keys, h.loads.Keys, h.shares.Keys, nb, a);
    KeysAdd(h.given, a, addr);
    OutsideSet(h, mine, a, addr, |nb|);
    if !ProperPrefix(mine, addr) {
      AddOne(Outside(h, mine), Outside(h', mine), a);
    }
  }

  /** One more neighbour heard from: the count grows by one and stays within the neighbours. */
  lemma HeardGrows(given: set<LinkId>, rest: set<LinkId>, nb: set<LinkId>, a: LinkId)
    requires given <= nb && rest <= nb && a in nb && a !in given && a !in rest
    ensures |given + (rest + {a})| == |given + rest| + 1 <= |nb| && |given| < |nb|
  {
    UnionAdd(given, rest, a);
    SubsetCard(given + (rest + {a}), nb);
    SubsetCard(given, given + rest);
  }

  lemma OutsideSame(h: Hist, h': Hist, mine: Addr)
    requires h'.given == h.given
    ensures Outside(h', mine) == Outside(h, mine)
  {
  }

  lemma CardLoad(h: Hist, mine: Addr, nb: set<LinkId>, a: LinkId, value: int)
    requires CardInv(h, mine, nb) && a in nb && a !in h.given && a !in h.loads
    ensures CardInv(HeardLoad(h, a, value, |nb|), mine, nb) && h.nLoad < |nb| && h.nGiven < |nb|
  {
    HeardGrows(h.given.Keys, h.loads.Keys, nb, a);
    OutsideSame(h, HeardLoad(h, a, value, |nb|), mine);
  }

  lemma CardShare(h: Hist, mine: Addr, nb: set<LinkId>, a: LinkId, value: int)
    requires CardInv(h, mine, nb) && a in nb && a !in h.given && a !in h.shares
    ensures CardInv(HeardShare(h, a, value), mine, nb) && h.nShare < |nb| && h.nGiven < |nb|
  {
    var h' := HeardShare(h, a, value);
    KeysAdd(h.shares, a, value);
    assert h'.shares.Keys == h.shares.Keys + {a};
    HeardGrows(h.given.Keys, h.shares.Keys, nb, a);
    OutsideSame(h, h', mine);
  }

  lemma CardFirst(a: LinkId, addr: Addr, draw: int, nb: set<LinkId>)
    requires a in nb
    ensures CardInv(FirstHist(a, addr, draw), addr, nb)
  {
    var h := FirstHist(a, addr, draw);
    assert h.given.Keys == {a} && h.given.Keys + h.loads.Keys == {a} && h.given.Keys + h.shares.Keys == {a};
    assert Outside(h, addr) == {a};
  }

  lemma CardRoot(start: int, nb: set<LinkId>)
    ensures CardInv(RootHist(start), [1], nb)
  {
    var h := RootHist(start);
    assert h.given.Keys == {} && h.given.Keys + h.loads.Keys == {} && h.given.Keys + h.shares.Keys == {};
    assert Outside(h, [1]) == {};
  }

  // ---- the tree so far ----

  /** A joined common node has a joined parent that gave it its address. */
  lemma ParentFacts(c: Config, s: Sys, v: nat)
    requires Inv(c, s) && v < c.n && v != c.root && J(c, s, v)
    ensures var u := s.hist[v].parent;
            && u < c.n && u in c.nbrs[v] && J(c, s, u)
            && IdIn(c.nbrs[u], v) < 256
            && MyAddr(s.nodes[v].table) == MyAddr(s.nodes[u].table) + [IdIn(c.nbrs[u], v)]
  {
    var u := s.hist[v].parent;
    assert NodeInv(c, s, v);
    PlaceAtOk(c, v);
    assert u in s.hist[v].given;
    assert TableOk(c, v);
    assert ChanInv(c, s, KSet, u, v);
  }

  /** Some child of the root lies on the way to every joined common node. */
  lemma ChildOfRoot(c: Config, s: Sys, v: nat) returns (x: nat)
    requires Inv(c, s) && v < c.n && v != c.root && J(c, s, v)
    ensures x < c.n && x != c.root && J(c, s, x) && s.hist[x].parent == c.root
    decreases |MyAddr(s.nodes[v].table)|
  {
    ParentFacts(c, s, v);
    var u := s.hist[v].parent;
    if u == c.root {
      x := v;
    } else {
      x := ChildOfRoot(c, s, u);
    }
  }

  lemma TwoMissing(given: set<LinkId>, nb: set<LinkId>, u: LinkId, x: LinkId)
    requires given <= nb && u in nb && x in nb && u != x && u !in given && x !in given
    ensures |given| + 1 < |nb|
  {
    AddOne(given, given + {u}, u);
    AddOne(given + {u}, given + {u} + {x}, x);
    SubsetCard(given + {u} + {x}, nb);
  }

  /** While a SetHLMAC for the root is under way, one more neighbour of the root has sent none. */
  lemma RootUnheard(c: Config, s: Sys, u: nat)
    requires Inv(c, s) && u < c.n && u != c.root && Said(c, s, KSet, u, c.root) && u in NbSet(c, c.root)
    requires J(c, s, u) && J(c, s, c.root) && u !in s.hist[c.root].given
    ensures s.hist[c.root].nGiven + 1 < |NbSet(c, c.root)|
  {
    var x := ChildOfRoot(c, s, u);
    ParentFacts(c, s, x);
    assert x in NbSet(c, c.root);
    assert ChanInv(c, s, KSet, x, c.root);
    assert NodeInv(c, s, c.root) && NodeInv(c, s, x) && NodeInv(c, s, u);
    assert x !in s.hist[c.root].given && x != u;
    TwoMissing(s.hist[c.root].given.Keys, NbSet(c, c.root), u, x);
  }

  // ---- the node that processes a message ----

  /** Everything known about a message on its way. */
  lemma UnderWay(c: Config, s: Sys, ch: Chan, j: nat)
    requires Inv(c, s) && ch.src < c.n && ch.dst < c.n
    requires j < |s.net(ch)| && s.net(ch)[j].status == InFlight
    ensures j == 0 && |s.net(ch)| == 1 && ch.src != ch.dst
    ensures Said(c, s, ch.kind, ch.src, ch.dst) && !Heard(c, s, ch.kind, ch.src, ch.dst)
    ensures Carries(s.net(ch)[0].msg, s.nodes[ch.src], PlaceAt(c, ch.src), ch.kind, ch.dst)
    ensures J(c, s, ch.src) && ch.src in c.nbrs[ch.dst]
  {
    var u, v := ch.src, ch.dst;
    assert ch == Chan(ch.kind, u, v);
    assert ChanInv(c, s, ch.kind, u, v);
    assert NodeInv(c, s, u) && TableOk(c, u);
    if ch.kind != KSet {
      ParentFacts(c, s, u);
    }
  }

  /** What a handler leaves behind, in one predicate. */
  ghost predicate Reacted(c: Config, s: Sys, u: nat, v: nat, m: Msg, draw: int)
    requires v < |s.nodes| == |s.hist| == |c.nbrs| && (m.SetHlmac? ==> |m.prefix + [m.id]| > 0)
  {
    var n, h := s.nodes[v], s.hist[v];
    var r, h' := React(n, u, m, draw), Record(n, h, u, m, draw, c.ts);
    && r.node.isRoot == n.isRoot && r.node.self == n.self
    && LocalInv(r.node, h', PlaceAt(c, v)) && CardInv(h', MyAddr(r.node.table), NbSet(c, v))
    && OutsMatch(n, h, r.node, h', PlaceAt(c, v), r.outs)
  }

  /** A further SetHLMAC at a node that has joined. */
  lemma ReactSetJoined(c: Config, s: Sys, u: nat, v: nat, m: Msg, draw: int)
    requires Inv(c, s) && u < c.n && v < c.n && u != v && u in NbSet(c, v) && J(c, s, u) && J(c, s, v)
    requires Said(c, s, KSet, u, v) && !Heard(c, s, KSet, u, v)
    requires m.SetHlmac? && m.timestamp == c.ts && NonZero(m.prefix + [m.id])
    ensures Reacted(c, s, u, v, m, draw)
  {
    var n, h, p := s.nodes[v], s.hist[v], PlaceAt(c, v);
    var addr, mine := m.prefix + [m.id], MyAddr(n.table);
    assert NodeInv(c, s, v) && ChanInv(c, s, KLoad, u, v) && ChanInv(c, s, KShare, u, v);
    PlaceAtOk(c, v);
    CardSet(h, mine, p.nb, u, addr);
    CardBounds(HeardSet(h, mine, u, addr, |p.g|), mine, p.nb);
    if v == c.root {
      RootUnheard(c, s, u);
    }
    StepSet(n, h, u, addr, draw, p);
    SetKeepsIdentity(n, u, addr, c.ts, draw);
    NoRoom(n, addr, c.ts);
  }

  /** The first SetHLMAC at a node. */
  lemma ReactSetWaiting(c: Config, s: Sys, u: nat, v: nat, m: Msg, draw: int)
    requires Inv(c, s) && v < c.n && u in NbSet(c, v) && !J(c, s, v)
    requires m.SetHlmac? && m.timestamp == c.ts && NonZero(m.prefix + [m.id])
    ensures Reacted(c, s, u, v, m, draw)
  {
    var n, h, p := s.nodes[v], s.hist[v], PlaceAt(c, v);
    var addr := m.prefix + [m.id];
    assert NodeInv(c, s, v);
    PlaceAtOk(c, v);
    StepJoin(n, h, u, addr, draw, p);
    CardFirst(u, addr, draw, p.nb);
    SetKeepsIdentity(n, u, addr, c.ts, draw);
    Takes(n, u, addr, draw, p);
  }

  /** A Load or a Share from a child. */
  lemma ReactUp(c: Config, s: Sys, u: nat, v: nat, m: Msg, draw: int)
    requires Inv(c, s) && u < c.n && v < c.n && u in NbSet(c, v) && !m.SetHlmac?
    requires Said(c, s, KindOf(m), u, v) && !Heard(c, s, KindOf(m), u, v)
    ensures J(c, s, v) && Reacted(c, s, u, v, m, draw)
  {
    var n, h, p := s.nodes[v], s.hist[v], PlaceAt(c, v);
    assert NodeInv(c, s, u) && NodeInv(c, s, v) && ChanInv(c, s, KSet, u, v);
    ParentFacts(c, s, u);
    PlaceAtOk(c, v);
    match m {
      case Load(value) =>
        CardLoad(h, MyAddr(n.table), p.nb, u, value);
        CardBounds(h, MyAddr(n.table), p.nb);
        StepLoad(n, h, u, value, p);
        LoadKeepsIdentity(n, u, value);
      case Share(value) =>
        CardShare(h, MyAddr(n.table), p.nb, u, value);
        CardBounds(h, MyAddr(n.table), p.nb);
        StepShare(n, h, u, value, p);
        ShareKeepsIdentity(n, u, value);
    }
  }

  lemma GiftNonZero(c: Config, s: Sys, u: nat, v: nat, m: Msg)
    requires Inv(c, s) && u < c.n && J(c, s, u) && Carries(m, s.nodes[u], PlaceAt(c, u), KSet, v)
    ensures NonZero(m.prefix + [m.id])
  {
    assert NodeInv(c, s, u);
  }

  /** Processing a message never gets stuck on the invariant: whatever is under way can be taken in. */
  lemma Reacts(c: Config, s: Sys, ch: Chan, j: nat, draw: int)
    requires Inv(c, s) && Enabled(c, s, Deliver(ch, j, draw))
    ensures Reacted(c, s, ch.src, ch.dst, s.net(ch)[j].msg, draw)
  {
    var u, v, m := ch.src, ch.dst, s.net(ch)[j].msg;
    UnderWay(c, s, ch, j);
    PlaceAtOk(c, v);
    if ch.kind == KSet {
      GiftNonZero(c, s, u, v, m);
      if J(c, s, v) {
        ReactSetJoined(c, s, u, v, m, draw);
      } else {
        ReactSetWaiting(c, s, u, v, m, draw);
      }
    } else {
      ReactUp(c, s, u, v, m, draw);
    }
  }

  // ---- the channels after a delivery ----

  /** The record has what it had, and the new message. */
  lemma RecordHeard(n: Node, h: Hist, u: nat, m: Msg, draw: int, ts: nat, k: Kind, x: nat, nx: Node, id: nat)
    requires m.SetHlmac? || Joined(n.table, ts)
    ensures var h' := Record(n, h, u, m, draw, ts);
            && (HeardIn(h', k, x) <==> (Joined(n.table, ts) && HeardIn(h, k, x)) || (k == KindOf(m) && x == u))
            && (HeardIn(h', k, x) && !(k == KindOf(m) && x == u) && UnderstoodIn(h, k, x, nx, id) ==> UnderstoodIn(h', k, x, nx, id))
  {
  }

  lemma RecordUnderstood(n: Node, h: Hist, u: nat, m: Msg, draw: int, ts: nat, nu: Node, id: nat)
    requires match m case SetHlmac(_, prefix, i) => prefix == MyAddr(nu.table) && i == id case Load(_) => true case Share(x) => x == nu.extraLoad
    ensures UnderstoodIn(Record(n, h, u, m, draw, ts), KindOf(m), u, nu, id)
  {
  }

  /** A receiver other than the sender of a Load or Share has joined. */
  lemma ReceiverJoined(c: Config, s: Sys, ch: Chan, j: nat)
    requires Inv(c, s) && ch.src < c.n && ch.dst < c.n
    requires j < |s.net(ch)| && s.net(ch)[j].status == InFlight
    ensures KindOf(s.net(ch)[j].msg) == ch.kind
    ensures s.net(ch)[j].msg.SetHlmac? || J(c, s, ch.dst)
  {
    UnderWay(c, s, ch, j);
    if ch.kind != KSet {
      assert NodeInv(c, s, ch.src);
      ParentFacts(c, s, ch.src);
    }
  }

  /** `s'` is `s` with `v` in a new state. */
  ghost predicate Moved(c: Config, s: Sys, s': Sys, v: nat, n': Node, h': Hist)
  {
    && |s.nodes| == |s.hist| == c.n && v < c.n
    && s'.nodes == s.nodes[v := n'] && s'.hist == s.hist[v := h']
  }

  /** The receiver has heard what it had heard, and the new message. */
  ghost predicate HearsMore(c: Config, s: Sys, s': Sys, ch: Chan, k: Kind, x: nat)
    requires |s.nodes| == |s.hist| == |s'.nodes| == |s'.hist| == |c.nbrs| && ch.dst < |s.nodes| && x < |s.nodes|
  {
    && (Heard(c, s', k, x, ch.dst) <==> Heard(c, s, k, x, ch.dst) || (k == ch.kind && x == ch.src))
    && (k == ch.kind && x == ch.src ==> Understood(c, s', k, x, ch.dst))
    && (Heard(c, s, k, x, ch.dst) && !(k == ch.kind && x == ch.src) && Understood(c, s, k, x, ch.dst) ==> Understood(c, s', k, x, ch.dst))
  }

  lemma HeardMoved(c: Config, s: Sys, s': Sys, ch: Chan, j: nat, draw: int, n': Node, k: Kind, x: nat)
    requires Inv(c, s) && Enabled(c, s, Deliver(ch, j, draw)) && x < c.n && x != ch.dst
    requires var m := s.net(ch)[j].msg;
             && KindOf(m) == ch.kind && Carries(m, s.nodes[ch.src], PlaceAt(c, ch.src), ch.kind, ch.dst)
             && Moved(c, s, s', ch.dst, n', Record(s.nodes[ch.dst], s.hist[ch.dst], ch.src, m, draw, c.ts))
    requires s.net(ch)[j].msg.SetHlmac? || J(c, s, ch.dst)
    requires Joined(n'.table, c.ts)
    ensures |s'.nodes| == |s'.hist| == c.n && HearsMore(c, s, s', ch, k, x)
  {
    var u, v, m := ch.src, ch.dst, s.net(ch)[j].msg;
    RecordHeard(s.nodes[v], s.hist[v], u, m, draw, c.ts, k, x, s.nodes[x], IdIn(c.nbrs[x], v));
    RecordUnderstood(s.nodes[v], s.hist[v], u, m, draw, c.ts, s.nodes[u], IdIn(c.nbrs[u], v));
  }

  lemma HeardStep(c: Config, s: Sys, ch: Chan, j: nat, draw: int, k: Kind, x: nat)
    requires Inv(c, s) && Enabled(c, s, Deliver(ch, j, draw)) && x < c.n && x != ch.dst
    ensures HearsMore(c, s, Step(c, s, Deliver(ch, j, draw)), ch, k, x)
  {
    var m := s.net(ch)[j].msg;
    UnderWay(c, s, ch, j);
    ReceiverJoined(c, s, ch, j);
    Reacts(c, s, ch, j, draw);
    HeardMoved(c, s, Step(c, s, Deliver(ch, j, draw)), ch, j, draw, React(s.nodes[ch.dst], ch.src, m, draw).node, k, x);
  }

  /** What a delivery does to the receiver and to the channels out of it. */
  lemma AfterDelivery(c: Config, s: Sys, ch: Chan, j: nat, draw: int, k: Kind, y: nat)
    requires |s.nodes| == |s.hist| == c.n && Enabled(c, s, Deliver(ch, j, draw)) && y < c.n && ch.src != ch.dst
    ensures var s', v, m := Step(c, s, Deliver(ch, j, draw)), ch.dst, s.net(ch)[j].msg;
            var r := React(s.nodes[v], ch.src, m, draw);
            && |s'.nodes| == |s'.hist| == c.n
            && s'.nodes[v] == r.node && s'.hist[v] == Record(s.nodes[v], s.hist[v], ch.src, m, draw, c.ts)
            && (y != v ==> s'.nodes[y] == s.nodes[y] && s'.hist[y] == s.hist[y])
            && s'.net(Chan(k, v, y)) == s.net(Chan(k, v, y)) + Fresh(To(r.outs, k, y))
  {
  }

  /** Channels out of the receiver. */
  lemma ChanFrom(c: Config, s: Sys, ch: Chan, j: nat, draw: int, k: Kind, y: nat)
    requires Inv(c, s) && Enabled(c, s, Deliver(ch, j, draw)) && y < c.n && y != ch.dst
    ensures ChanInv(c, Step(c, s, Deliver(ch, j, draw)), k, ch.dst, y)
  {
    var v, m := ch.dst, s.net(ch)[j].msg;
    UnderWay(c, s, ch, j);
    Reacts(c, s, ch, j, draw);
    var r, h' := React(s.nodes[v], ch.src, m, draw), Record(s.nodes[v], s.hist[v], ch.src, m, draw, c.ts);
    assert OutMatches(s.nodes[v], s.hist[v], r.node, h', PlaceAt(c, v), r.outs, k, y);
    AfterDelivery(c, s, ch, j, draw, k, y);
    ChanGrows(c, s, Step(c, s, Deliver(ch, j, draw)), v, r.node, h', r.outs, k, y);
  }

  lemma ChanGrows(c: Config, s: Sys, s': Sys, v: nat, n': Node, h': Hist, outs: seq<Out>, k: Kind, y: nat)
    requires Inv(c, s) && v < c.n && y < c.n && y != v
    requires |s'.nodes| == |s'.hist| == c.n && s'.nodes[v] == n' && s'.hist[v] == h'
    requires s'.nodes[y] == s.nodes[y] && s'.hist[y] == s.hist[y]
    requires s'.net(Chan(k, v, y)) == s.net(Chan(k, v, y)) + Fresh(To(outs, k, y))
    requires OutMatches(s.nodes[v], s.hist[v], n', h', PlaceAt(c, v), outs, k, y)
    ensures ChanInv(c, s', k, v, y)
  {
    assert ChanInv(c, s, k, v, y);
    if !Said(c, s, k, v, y) {
      assert s'.net(Chan(k, v, y)) == Fresh(To(outs, k, y));
    } else {
      assert s'.net(Chan(k, v, y)) == s.net(Chan(k, v, y));
      SaidSame(s.nodes[v], n', PlaceAt(c, v), k, y);
    }
  }

  lemma SaidSame(n: Node, n': Node, p: Place, k: Kind, y: nat)
    requires SameWord(n, n', k)
    ensures forall m: Msg :: Carries(m, n, p, k, y) ==> Carries(m, n', p, k, y)
    ensures forall h: Hist, id: nat :: UnderstoodIn(h, k, y, n, id) ==> UnderstoodIn(h, k, y, n', id)
    ensures forall h: Hist, id: nat, x: nat :: UnderstoodIn(h, k, x, n, id) ==> UnderstoodIn(h, k, x, n', id)
  {
  }

  /** Nobody writes to itself. */
  lemma ChanSelf(c: Config, s: Sys, ch: Chan, j: nat, draw: int, k: Kind)
    requires Inv(c, s) && Enabled(c, s, Deliver(ch, j, draw))
    ensures ChanInv(c, Step(c, s, Deliver(ch, j, draw)), k, ch.dst, ch.dst)
  {
    var v, m := ch.dst, s.net(ch)[j].msg;
    UnderWay(c, s, ch, j);
    ReceiverJoined(c, s, ch, j);
    Reacts(c, s, ch, j, draw);
    var r, h' := React(s.nodes[v], ch.src, m, draw), Record(s.nodes[v], s.hist[v], ch.src, m, draw, c.ts);
    assert OutMatches(s.nodes[v], s.hist[v], r.node, h', PlaceAt(c, v), r.outs, k, v);
    RecordHeard(s.nodes[v], s.hist[v], ch.src, m, draw, c.ts, k, v, s.nodes[v], 0);
    AfterDelivery(c, s, ch, j, draw, k, v);
    ChanSelfEmpty(c, s, Step(c, s, Deliver(ch, j, draw)), v, r.node, h', r.outs, k);
  }

  lemma ChanSelfEmpty(c: Config, s: Sys, s': Sys, v: nat, n': Node, h': Hist, outs: seq<Out>, k: Kind)
    requires Inv(c, s) && v < c.n && |s'.nodes| == |s'.hist| == c.n && s'.nodes[v] == n' && s'.hist[v] == h'
    requires s'.net(Chan(k, v, v)) == s.net(Chan(k, v, v)) + Fresh(To(outs, k, v))
    requires OutMatches(s.nodes[v], s.hist[v], n', h', PlaceAt(c, v), outs, k, v)
    requires LocalInv(n', h', PlaceAt(c, v))
    requires HeardIn(h', k, v) ==> Heard(c, s, k, v, v)
    ensures ChanInv(c, s', k, v, v)
  {
    assert ChanInv(c, s, k, v, v) && NodeInv(c, s, v);
    NotToSelf(c, s, v, k);
    NotToSelf(c, s', v, k);
  }

  lemma NotToSelf(c: Config, s: Sys, v: nat, k: Kind)
    requires ConfigOk(c) && |s.nodes| == |s.hist| == c.n && v < c.n
    requires J(c, s, v) ==> LocalInv(s.nodes[v], s.hist[v], PlaceAt(c, v))
    ensures !Said(c, s, k, v, v)
  {
    assert TableOk(c, v);
  }

  /** Channels into the receiver. */
  lemma ChanTo(c: Config, s: Sys, ch: Chan, j: nat, draw: int, k: Kind, x: nat)
    requires Inv(c, s) && Enabled(c, s, Deliver(ch, j, draw)) && x < c.n && x != ch.dst
    ensures ChanInv(c, Step(c, s, Deliver(ch, j, draw)), k, x, ch.dst)
  {
    UnderWay(c, s, ch, j);
    HeardStep(c, s, ch, j, draw, k, x);
    assert ChanInv(c, s, k, x, ch.dst);
  }

  /** All other channels. */
  lemma ChanElse(c: Config, s: Sys, ch: Chan, j: nat, draw: int, k: Kind, x: nat, y: nat)
    requires Inv(c, s) && Enabled(c, s, Deliver(ch, j, draw)) && x < c.n && y < c.n && x != ch.dst && y != ch.dst
    ensures ChanInv(c, Step(c, s, Deliver(ch, j, draw)), k, x, y)
  {
    assert ChanInv(c, s, k, x, y);
  }

  /** A node that is left alone keeps its invariant ... */
  lemma NodeStays(c: Config, s: Sys, s': Sys, v: nat)
    requires v < |s.nodes| == |s.hist| == |s'.nodes| == |s'.hist| == |c.nbrs| && NodeInv(c, s, v)
    requires s'.nodes[v] == s.nodes[v] && s'.hist[v] == s.hist[v]
    ensures NodeInv(c, s', v)
  {
  }

  /** ... and so does one that has reacted. */
  lemma NodeReacted(c: Config, s: Sys, s': Sys, u: nat, v: nat, m: Msg, draw: int)
    requires v < |s.nodes| == |s.hist| == |s'.nodes| == |s'.hist| == |c.nbrs| && NodeInv(c, s, v)
    requires Reacted(c, s, u, v, m, draw)
    requires s'.nodes[v] == React(s.nodes[v], u, m, draw).node && s'.hist[v] == Record(s.nodes[v], s.hist[v], u, m, draw, c.ts)
    ensures NodeInv(c, s', v)
  {
    var n', h' := s'.nodes[v], s'.hist[v];
    assert LocalInv(n', h', PlaceAt(c, v)) && CardInv(h', MyAddr(n'.table), NbSet(c, v));
  }

  lemma DeliverNode(c: Config, s: Sys, ch: Chan, j: nat, draw: int, v: nat)
    requires Inv(c, s) && Enabled(c, s, Deliver(ch, j, draw)) && v < c.n
    ensures NodeInv(c, Step(c, s, Deliver(ch, j, draw)), v)
  {
    var s' := Step(c, s, Deliver(ch, j, draw));
    assert NodeInv(c, s, v);
    if v == ch.dst {
      Reacts(c, s, ch, j, draw);
      NodeReacted(c, s, s', ch.src, v, s.net(ch)[j].msg, draw);
    } else {
      NodeStays(c, s, s', v);
    }
  }

  lemma DeliverInv(c: Config, s: Sys, ch: Chan, j: nat, draw: int)
    requires Inv(c, s) && Enabled(c, s, Deliver(ch, j, draw))
    ensures Inv(c, Step(c, s, Deliver(ch, j, draw)))
  {
    var s' := Step(c, s, Deliver(ch, j, draw));
    forall v | 0 <= v < c.n
      ensures NodeInv(c, s', v)
    {
      DeliverNode(c, s, ch, j, draw, v);
    }
    forall k, x, y | 0 <= x < c.n && 0 <= y < c.n
      ensures ChanInv(c, s', k, x, y)
    {
      if x == ch.dst && y == ch.dst {
        ChanSelf(c, s, ch, j, draw, k);
      } else if x == ch.dst {
        ChanFrom(c, s, ch, j, draw, k, y);
      } else if y == ch.dst {
        ChanTo(c, s, ch, j, draw, k, x);
      } else {
        ChanElse(c, s, ch, j, draw, k, x, y);
      }
    }
  }

  lemma LoseInv(c: Config, s: Sys, ch: Chan, j: nat)
    requires Inv(c, s) && Enabled(c, s, Lose(ch, j))
    ensures Inv(c, Step(c, s, Lose(ch, j)))
  {
    var s' := Step(c, s, Lose(ch, j));
    forall v | 0 <= v < c.n
      ensures NodeInv(c, s', v)
    {
      assert NodeInv(c, s, v);
    }
    forall k, x, y | 0 <= x < c.n && 0 <= y < c.n
      ensures ChanInv(c, s', k, x, y)
    {
      assert ChanInv(c, s, k, x, y);
    }
  }

  lemma BeginOuts(c: Config, nodes: seq<Node>, draw: int, k: Kind, y: nat)
    requires ReadyFor(c, nodes) && c.nbrs[c.root] != []
    ensures var r := OnRootTimer(nodes[c.root], draw);
            OutMatches(nodes[c.root], RootHist(0), r.node, RootHist(HeadLoad(r.node)), PlaceAt(c, c.root), r.outs, k, y)
  {
    PlaceAtOk(c, c.root);
    StepRoot(nodes[c.root], RootHist(0), draw, PlaceAt(c, c.root));
  }

  lemma BeginChan(c: Config, nodes: seq<Node>, draw: int, k: Kind, x: nat, y: nat)
    requires ReadyFor(c, nodes) && c.nbrs[c.root] != [] && x < c.n && y < c.n
    ensures ChanInv(c, Begin(c, nodes, draw), k, x, y)
  {
    var s, v := Begin(c, nodes, draw), c.root;
    var r := OnRootTimer(nodes[v], draw);
    PlaceAtOk(c, v);
    BeginOuts(c, nodes, draw, k, y);
    assert !Heard(c, s, k, x, y);
    if x == v {
      assert s.net(Chan(k, x, y)) == Fresh(To(r.outs, k, y));
    }
  }

  lemma BeginInv(c: Config, nodes: seq<Node>, draw: int)
    requires ReadyFor(c, nodes) && c.nbrs[c.root] != []
    ensures Inv(c, Begin(c, nodes, draw))
  {
    var s, v := Begin(c, nodes, draw), c.root;
    var r := OnRootTimer(nodes[v], draw);
    PlaceAtOk(c, v);
    StepRoot(nodes[v], RootHist(0), draw, PlaceAt(c, v));
    RootOpens(nodes[v], draw, PlaceAt(c, v));
    CardRoot(HeadLoad(r.node), NbSet(c, v));
    forall k, x, y | 0 <= x < c.n && 0 <= y < c.n
      ensures ChanInv(c, s, k, x, y)
    {
      BeginChan(c, nodes, draw, k, x, y);
    }
  }

  lemma InvNext(c: Config, run: seq<Sys>, i: nat)
    requires AllSteps(c, run) && i + 1 < |run| && Inv(c, run[i])
    ensures Inv(c, run[i + 1])
  {
    NextStep(c, run, i);
    StepInv(c, run[i], run[i + 1]);
  }

  lemma {:induction false} InvFrom(c: Config, run: seq<Sys>, i: nat)
    requires AllSteps(c, run) && i < |run| && Inv(c, run[0])
    ensures Inv(c, run[i])
  {
    if i > 0 {
      InvFrom(c, run, i - 1);
      InvNext(c, run, i - 1);
    }
  }

  /** Every state of every run satisfies the invariant. */
  lemma RunInv(c: Config, run: seq<Sys>, i: nat)
    requires IsRun(c, run) && c.nbrs[c.root] != [] && i < |run|
    ensures Inv(c, run[i])
  {
    var nodes, draw := RunStart(c, run);
    BeginInv(c, nodes, draw);
    InvFrom(c, run, i);
  }

  lemma StepInv(c: Config, s: Sys, s': Sys)
    requires Inv(c, s) && IsStep(c, s, s')
    ensures Inv(c, s')
  {
    var e :| Enabled(c, s, e) && s' == Step(c, s, e);
    match e {
      case Deliver(ch, j, draw) => DeliverInv(c, s, ch, j, draw);
      case Lose(ch, j) => LoseInv(c, s, ch, j);
    }
  }
}
