/** NAT hole-punching: one rendezvous-coordinated handshake as a message cascade
    that always dies out and, without loss, leaves both ends reachable. */
module HolePunch {
  import opened Seqs

  type Peer = nat
  type Addr = nat

  const PUNCHES: nat := 5

  datatype Op =
    | Whoami
    | WhoamiResp(addr: Addr)
    | ConnectReq(target: Peer)
    | ConnectResp(peer: Peer, peerAddr: Addr)
    | PunchReq(initiator: Peer, initiatorAddr: Addr)
    | Punch
    | PunchAck

  datatype Message = Message(sender: Peer, recipient: Peer, op: Op)

  // waiting: peers a local `punch` call is waiting on, and whether it was told.
  datatype PunchState = PunchState(
    reachable: set<Peer>, peerAddrs: map<Peer, Addr>, discovered: map<Peer, Addr>,
    waiting: map<Peer, bool>, reflexive: Option<Option<Addr>>)

  function MarkReachable(s: PunchState, peer: Peer): PunchState {
    s.(reachable := s.reachable + {peer}, waiting := if peer in s.waiting then s.waiting[peer := true] else s.waiting)
  }

  // The bus drops silently when it has no address for the recipient.
  function Post(s: PunchState, m: Message): seq<Message> {
    if m.recipient in s.peerAddrs then [m] else []
  }

  function Repeat(m: Message, n: nat): (ms: seq<Message>)
    ensures |ms| == n && forall x | x in ms :: x == m
  {
    if n == 0 then [] else [m] + Repeat(m, n - 1)
  }

  lemma OneMore(sent: seq<Message>, m: Message, n: nat)
    ensures sent + Repeat(m, n + 1) == sent + [m] + Repeat(m, n)
  {
    ConcatAssoc(sent, [m], Repeat(m, n));
  }

  function BeginPunch(self: Peer, s: PunchState, peer: Peer, addr: Addr): (PunchState, seq<Message>) {
    (s.(peerAddrs := s.peerAddrs[peer := addr]), Repeat(Message(self, peer, Punch), PUNCHES))
  }

  // The target's address, discovery first.
  function TargetAddr(s: PunchState, target: Peer): Option<Addr> {
    if target in s.discovered then Some(s.discovered[target])
    else if target in s.peerAddrs then Some(s.peerAddrs[target]) else None
  }

  // Rendezvous: tell B to punch A and A where B is, if both are known.
  function RelayConnect(self: Peer, s: PunchState, a: Peer, b: Peer): (PunchState, seq<Message>) {
    var bAddr := TargetAddr(s, b);
    if a !in s.peerAddrs || bAddr.None? then (s, [])
    else
      var aAddr := s.peerAddrs[a];
      (s.(peerAddrs := s.peerAddrs[b := bAddr.value]),
       [Message(self, b, PunchReq(a, aAddr)), Message(self, a, ConnectResp(b, bAddr.value))])
  }

  function Handles(self: Peer, s: PunchState, m: Message): (PunchState, seq<Message>) {
    match m.op
    case Whoami =>
      (s, if m.sender in s.peerAddrs then [Message(self, m.sender, WhoamiResp(s.peerAddrs[m.sender]))] else [])
    case WhoamiResp(addr) =>
      (if s.reflexive == Some(None) then s.(reflexive := Some(Some(addr))) else s, [])
    case ConnectReq(target) => RelayConnect(self, s, m.sender, target)
    case ConnectResp(peer, addr) => BeginPunch(self, s, peer, addr)
    case PunchReq(peer, addr) => BeginPunch(self, s, peer, addr)
    case Punch =>
      var s' := MarkReachable(s, m.sender);
      (s', Post(s', Message(self, m.sender, PunchAck)))
    case PunchAck => (MarkReachable(s, m.sender), [])
  }

  class HolePuncher {
    const self: Peer
    var reachable: set<Peer>
    var peerAddrs: map<Peer, Addr>
    var discovered: map<Peer, Addr>
    var punchFuts: map<Peer, bool>
    var whoamiFut: Option<Option<Addr>>

    function State(): PunchState
      reads this
    {
      PunchState(reachable, peerAddrs, discovered, punchFuts, whoamiFut)
    }

    constructor (self: Peer)
      ensures this.self == self && State() == PunchState({}, map[], map[], map[], None)
    {
      this.self := self;
      reachable, peerAddrs, discovered, punchFuts, whoamiFut := {}, map[], map[], map[], None;
    }

    method Mark(peer: Peer)
      modifies this`reachable, this`punchFuts
      ensures State() == MarkReachable(old(State()), peer)
    {
      reachable := reachable + {peer};
      if peer in punchFuts && !punchFuts[peer] {
        punchFuts := punchFuts[peer := true];
      }
    }

    // Several punches, so one of ours meets an open mapping.
    method Begin(peer: Peer, addr: Addr) returns (sent: seq<Message>)
      modifies this`peerAddrs
      ensures State() == BeginPunch(self, old(State()), peer, addr).0
      ensures sent == BeginPunch(self, old(State()), peer, addr).1
    {
      peerAddrs := peerAddrs[peer := addr];
      var punch := Message(self, peer, Punch);
      sent := [];
      for i := 0 to PUNCHES
        invariant peerAddrs == old(peerAddrs)[peer := addr]
        invariant sent + Repeat(punch, PUNCHES - i) == Repeat(punch, PUNCHES)
      {
        OneMore(sent, punch, PUNCHES - i - 1);
        sent := sent + [punch];
      }
      assert Repeat(punch, 0) == [] && sent + [] == sent;
    }

    method Connect(a: Peer, target: Peer) returns (sent: seq<Message>)
      modifies this`peerAddrs
      ensures State() == RelayConnect(self, old(State()), a, target).0
      ensures sent == RelayConnect(self, old(State()), a, target).1
    {
      var bAddr := if target in discovered then Some(discovered[target])
                   else if target in peerAddrs then Some(peerAddrs[target]) else None;
      if a !in peerAddrs || bAddr.None? { return []; }
      var aAddr := peerAddrs[a];
      peerAddrs := peerAddrs[target := bAddr.value];
      sent := [Message(self, target, PunchReq(a, aAddr)), Message(self, a, ConnectResp(target, bAddr.value))];
    }

    method Handle(m: Message) returns (sent: seq<Message>)
      modifies this
      ensures State() == Handles(self, old(State()), m).0
      ensures sent == Handles(self, old(State()), m).1
    {
      sent := [];
      match m.op {
        case Whoami =>
          if m.sender in peerAddrs {
            sent := [Message(self, m.sender, WhoamiResp(peerAddrs[m.sender]))];
          }
        case WhoamiResp(addr) =>
          if whoamiFut.Some? && whoamiFut.value.None? { whoamiFut := Some(Some(addr)); }
        case ConnectReq(target) => sent := Connect(m.sender, target);
        case ConnectResp(peer, addr) => sent := Begin(peer, addr);
        case PunchReq(peer, addr) => sent := Begin(peer, addr);
        case Punch =>
          Mark(m.sender);
          if m.sender in peerAddrs { sent := [Message(self, m.sender, PunchAck)]; }
        case PunchAck => Mark(m.sender);
      }
    }
  }

  // ---- the cascade dies out ----

  // One more than all the messages this one can still cause.
  function Weight(op: Op): nat {
    match op
    case ConnectReq(_) => 23
    case ConnectResp(_, _) => 11
    case PunchReq(_, _) => 11
    case Punch => 2
    case Whoami => 2
    case WhoamiResp(_) => 1
    case PunchAck => 1
  }

  function Load(ms: seq<Message>): nat {
    if ms == [] then 0 else Weight(ms[0].op) + Load(ms[1..])
  }

  lemma {:induction false} LoadAppend(a: seq<Message>, b: seq<Message>)
    ensures Load(a + b) == Load(a) + Load(b)
  {
    if a == [] {
      assert a + b == b;
    } else {
      assert (a + b)[1..] == a[1..] + b;
      LoadAppend(a[1..], b);
    }
  }

  lemma {:induction false} LoadRemove(ms: seq<Message>, i: nat)
    requires i < |ms|
    ensures Load(RemoveAt(ms, i)) + Weight(ms[i].op) == Load(ms)
  {
    if i == 0 {
      assert RemoveAt(ms, 0) == ms[1..];
    } else {
      LoadRemove(ms[1..], i - 1);
      assert RemoveAt(ms, i) == [ms[0]] + RemoveAt(ms[1..], i - 1);
    }
  }

  lemma {:induction false} LoadRepeat(m: Message, n: nat)
    ensures Load(Repeat(m, n)) == n * Weight(m.op)
  {
    if n > 0 {
      LoadRepeat(m, n - 1);
      assert Repeat(m, n)[1..] == Repeat(m, n - 1);
    }
  }

  lemma LoadCounts(ms: seq<Message>)
    ensures |ms| <= Load(ms)
    decreases |ms|
  {
    if ms != [] {
      LoadCounts(ms[1..]);
    }
  }

  // Handling a message posts strictly less than it weighs.
  lemma HandlingSheds(self: Peer, s: PunchState, m: Message)
    ensures Load(Handles(self, s, m).1) < Weight(m.op)
  {
    var out := Handles(self, s, m).1;
    match m.op {
      case ConnectReq(target) =>
        if out != [] {
          assert out[1..] == [out[1]] && out[1..][1..] == [];
          assert Load(out[1..]) == 11;
        }
      case ConnectResp(peer, addr) => LoadRepeat(Message(self, peer, Punch), PUNCHES);
      case PunchReq(peer, addr) => LoadRepeat(Message(self, peer, Punch), PUNCHES);
      case Whoami => SingleLoad(out);
      case Punch => SingleLoad(out);
      case _ =>
    }
  }

  lemma SingleLoad(ms: seq<Message>)
    requires |ms| <= 1
    ensures Load(ms) == if ms == [] then 0 else Weight(ms[0].op)
  {
    if ms != [] {
      assert ms[1..] == [];
    }
  }

  // ---- the network ----

  // A message on the wire: the address dialled, and the one it comes from.
  datatype Datagram = Datagram(m: Message, to: Addr, from: Addr)

  // Every node's state, what is in flight, how many datagrams were posted.
  datatype Net = Net(nodes: map<Peer, PunchState>, inflight: seq<Datagram>, posted: nat)

  function Messages(ds: seq<Datagram>): (ms: seq<Message>)
    ensures |ms| == |ds|
  {
    seq(|ds|, i requires 0 <= i < |ds| => ds[i].m)
  }

  // The bus dials the address it holds for each recipient.
  function Dialled(s: PunchState, from: Addr, ms: seq<Message>): seq<Datagram> {
    if ms == [] then []
    else
      var m := ms[0];
      (if m.recipient in s.peerAddrs then [Datagram(m, s.peerAddrs[m.recipient], from)] else [])
        + Dialled(s, from, ms[1..])
  }

  lemma {:induction false} DialledHas(s: PunchState, from: Addr, ms: seq<Message>, m: Message)
    requires m in ms && m.recipient in s.peerAddrs
    ensures Datagram(m, s.peerAddrs[m.recipient], from) in Dialled(s, from, ms)
  {
    if m != ms[0] {
      DialledHas(s, from, ms[1..], m);
    }
  }

  lemma {:induction false} DialledOnly(s: PunchState, from: Addr, ms: seq<Message>)
    ensures forall d | d in Dialled(s, from, ms) :: d.m in ms && d.from == from
  {
    if ms != [] {
      DialledOnly(s, from, ms[1..]);
    }
  }

  lemma {:induction false} DialledLoad(s: PunchState, from: Addr, ms: seq<Message>)
    ensures Load(Messages(Dialled(s, from, ms))) <= Load(ms)
  {
    if ms != [] {
      var rest := Dialled(s, from, ms[1..]);
      DialledLoad(s, from, ms[1..]);
      if ms[0].recipient in s.peerAddrs {
        var d := Datagram(ms[0], s.peerAddrs[ms[0].recipient], from);
        assert Messages([d] + rest)[1..] == Messages(rest);
      } else {
        assert [] + rest == rest;
      }
    }
  }

  // The bus learns the sender's return address from every message it verifies.
  function Learn(s: PunchState, sender: Peer, addr: Addr): PunchState {
    s.(peerAddrs := s.peerAddrs[sender := addr])
  }

  // home: where each node can be dialled. Whoever is at home where a datagram was sent
  // takes it for its own.
  ghost predicate Delivers(home: map<Peer, Addr>, n: Net, i: nat, p: Peer, n': Net) {
    && i < |n.inflight| && p in n.nodes && p in home && home[p] == n.inflight[i].to
    && var d := n.inflight[i];
       var (s, out) := Handles(p, Learn(n.nodes[p], d.m.sender, d.from), Message(d.m.sender, p, d.m.op));
       var sent := Dialled(s, home[p], out);
       n' == Net(n.nodes[p := s], RemoveAt(n.inflight, i) + sent, n.posted + |sent|)
  }

  ghost predicate Loses(n: Net, i: nat, n': Net) {
    i < |n.inflight| && n' == n.(inflight := RemoveAt(n.inflight, i))
  }

  ghost predicate DeliversSome(home: map<Peer, Addr>, n: Net, n': Net) {
    exists i: nat, p :: Delivers(home, n, i, p, n')
  }

  ghost predicate LosesSome(n: Net, n': Net) { exists i: nat :: Loses(n, i, n') }

  ghost predicate Run(home: map<Peer, Addr>, ns: seq<Net>) {
    |ns| > 0 && forall t | 0 <= t < |ns| - 1 :: DeliversSome(home, ns[t], ns[t + 1]) || LosesSome(ns[t], ns[t + 1])
  }

  // Datagrams posted so far plus those still to come.
  function Bound(n: Net): int { n.posted + Load(Messages(n.inflight)) - |n.inflight| }

  lemma StepSheds(home: map<Peer, Addr>, n: Net, n': Net)
    requires DeliversSome(home, n, n') || LosesSome(n, n')
    ensures Load(Messages(n'.inflight)) < Load(Messages(n.inflight)) && Bound(n') <= Bound(n)
  {
    if i: nat, p :| Delivers(home, n, i, p, n') {
      var d := n.inflight[i];
      var s, m := Learn(n.nodes[p], d.m.sender, d.from), Message(d.m.sender, p, d.m.op);
      var (s', out) := Handles(p, s, m);
      var sent := Dialled(s', home[p], out);
      RemoveLoad(n.inflight, i);
      HandlingSheds(p, s, m);
      DialledLoad(s', home[p], out);
      assert Messages(RemoveAt(n.inflight, i) + sent) == Messages(RemoveAt(n.inflight, i)) + Messages(sent);
      LoadAppend(Messages(RemoveAt(n.inflight, i)), Messages(sent));
    } else {
      var i: nat :| Loses(n, i, n');
      RemoveLoad(n.inflight, i);
    }
  }

  lemma RemoveLoad(ds: seq<Datagram>, i: nat)
    requires i < |ds|
    ensures Load(Messages(RemoveAt(ds, i))) + Weight(ds[i].m.op) == Load(Messages(ds))
  {
    LoadRemove(Messages(ds), i);
    assert Messages(RemoveAt(ds, i)) == RemoveAt(Messages(ds), i);
  }

  // Every run is shorter than its initial load, and never posts beyond its bound.
  lemma {:induction false} RunsDieOut(home: map<Peer, Addr>, ns: seq<Net>, t: nat)
    requires Run(home, ns) && t < |ns|
    ensures t + Load(Messages(ns[t].inflight)) <= Load(Messages(ns[0].inflight))
    ensures Bound(ns[t]) <= Bound(ns[0])
  {
    if t > 0 {
      RunsDieOut(home, ns, t - 1);
      assert DeliversSome(home, ns[t - 1], ns[t - 1 + 1]) || LosesSome(ns[t - 1], ns[t - 1 + 1]);
      StepSheds(home, ns[t - 1], ns[t]);
    }
  }

  // One connect request causes at most 22 further datagrams, whatever is lost,
  // reordered, sent to a wrong address or already known to the nodes.
  lemma OneRequestCausesAtMost22(home: map<Peer, Addr>, ns: seq<Net>, t: nat, d: Datagram)
    requires Run(home, ns) && t < |ns| && d.m.op.ConnectReq?
    requires ns[0].inflight == [d] && ns[0].posted == 0
    ensures ns[t].posted <= 22 && t <= 23
  {
    RunsDieOut(home, ns, t);
    LoadCounts(Messages(ns[t].inflight));
    SingleLoad(Messages([d]));
  }

  // ---- what an acknowledgement means ----

  // An ack on its way from B to A: B has already marked A reachable.
  ghost predicate AcksAreTrue(n: Net) {
    forall d | d in n.inflight && d.m.op.PunchAck? ::
      d.m.sender in n.nodes && d.m.recipient in n.nodes[d.m.sender].reachable
  }

  // x is marked, and whoever waits for it has been told.
  predicate Marked(s: PunchState, x: Peer) {
    x in s.reachable && (x in s.waiting ==> s.waiting[x])
  }

  lemma HandlingGrows(self: Peer, s: PunchState, m: Message)
    ensures var (s', out) := Handles(self, s, m);
            && s.reachable <= s'.reachable && s.peerAddrs.Keys <= s'.peerAddrs.Keys && s'.discovered == s.discovered
            && (forall x | Marked(s, x) :: Marked(s', x))
            && forall x | x in out :: x.sender == self && (x.op.PunchAck? ==> x.recipient in s'.reachable)
  {
  }

  lemma DeliveryKeepsAcks(home: map<Peer, Addr>, n: Net, i: nat, p: Peer, n': Net)
    requires AcksAreTrue(n) && Delivers(home, n, i, p, n')
    ensures AcksAreTrue(n')
  {
    var d := n.inflight[i];
    var s, m := Learn(n.nodes[p], d.m.sender, d.from), Message(d.m.sender, p, d.m.op);
    HandlingGrows(p, s, m);
    DialledOnly(Handles(p, s, m).0, home[p], Handles(p, s, m).1);
    forall x | x in n'.inflight && x.m.op.PunchAck?
      ensures x.m.sender in n'.nodes && x.m.recipient in n'.nodes[x.m.sender].reachable
    {
      if x in RemoveAt(n.inflight, i) {
        assert x in n.inflight;
      }
    }
  }

  lemma StepKeepsAcks(home: map<Peer, Addr>, n: Net, n': Net)
    requires AcksAreTrue(n) && (DeliversSome(home, n, n') || LosesSome(n, n'))
    ensures AcksAreTrue(n')
  {
    if i: nat, p :| Delivers(home, n, i, p, n') {
      DeliveryKeepsAcks(home, n, i, p, n');
    } else {
      var i: nat :| Loses(n, i, n');
      assert forall x | x in n'.inflight :: x in n.inflight;
    }
  }

  lemma {:induction false} AcksStayTrue(home: map<Peer, Addr>, ns: seq<Net>, t: nat)
    requires Run(home, ns) && t < |ns| && AcksAreTrue(ns[0])
    ensures AcksAreTrue(ns[t])
  {
    if t > 0 {
      AcksStayTrue(home, ns, t - 1);
      assert DeliversSome(home, ns[t - 1], ns[t - 1 + 1]) || LosesSome(ns[t - 1], ns[t - 1 + 1]);
      StepKeepsAcks(home, ns[t - 1], ns[t]);
    }
  }

  // Whoever a punch reaches marks its sender, wakes who waits for it and acknowledges to
  // where the punch came from.
  lemma PunchIsAcked(home: map<Peer, Addr>, n: Net, i: nat, y: Peer, n': Net, x: Peer)
    requires Delivers(home, n, i, y, n') && n.inflight[i].m.sender == x && n.inflight[i].m.op == Punch
    ensures Marked(n'.nodes[y], x)
    ensures Datagram(Message(y, x, PunchAck), n.inflight[i].from, home[y]) in n'.inflight
  {
    var d := n.inflight[i];
    var (s', out) := Handles(y, Learn(n.nodes[y], x, d.from), Message(x, y, Punch));
    assert out == [Message(y, x, PunchAck)];
    DialledHas(s', home[y], out, Message(y, x, PunchAck));
  }

  // Told of a peer, a node fires five punches at the address it was told.
  lemma FivePunches(home: map<Peer, Addr>, n: Net, i: nat, p: Peer, n': Net, peer: Peer, addr: Addr)
    requires Delivers(home, n, i, p, n')
    requires n.inflight[i].m.op == ConnectResp(peer, addr) || n.inflight[i].m.op == PunchReq(peer, addr)
    ensures n'.inflight == RemoveAt(n.inflight, i) + seq(5, _ => Datagram(Message(p, peer, Punch), addr, home[p]))
    ensures peer in n'.nodes[p].peerAddrs && n'.nodes[p].peerAddrs[peer] == addr
  {
    var d := n.inflight[i];
    var (s', out) := Handles(p, Learn(n.nodes[p], d.m.sender, d.from), Message(d.m.sender, p, d.m.op));
    DialledPunches(s', home[p], Message(p, peer, Punch), 5);
  }

  lemma {:induction false} DialledPunches(s: PunchState, from: Addr, m: Message, n: nat)
    requires m.recipient in s.peerAddrs
    ensures Dialled(s, from, Repeat(m, n)) == seq(n, _ => Datagram(m, s.peerAddrs[m.recipient], from))
  {
    if n > 0 {
      DialledPunches(s, from, m, n - 1);
      assert Repeat(m, n)[1..] == Repeat(m, n - 1);
    }
  }

  // ---- reflexive discovery ----

  // A node that asks where it was seen from, and is answered, learns the address its
  // question came from.
  lemma ReflexiveDiscovery(home: map<Peer, Addr>, n0: Net, i: nat, r: Peer, n1: Net, a: Peer)
    requires Delivers(home, n0, i, r, n1) && n0.inflight[i].m.sender == a && n0.inflight[i].m.op == Whoami
    ensures Datagram(Message(r, a, WhoamiResp(n0.inflight[i].from)), n0.inflight[i].from, home[r]) in n1.inflight
  {
    var d := n0.inflight[i];
    var s := Learn(n0.nodes[r], a, d.from);
    DialledHas(s, home[r], Handles(r, s, Message(a, r, Whoami)).1, Message(r, a, WhoamiResp(d.from)));
  }

  lemma ReflexiveLearned(home: map<Peer, Addr>, n: Net, i: nat, a: Peer, n': Net, addr: Addr)
    requires Delivers(home, n, i, a, n') && n.inflight[i].m.op == WhoamiResp(addr)
    requires n.nodes[a].reflexive == Some(None)
    ensures n'.nodes[a].reflexive == Some(Some(addr))
  {
  }

  // ---- without loss both ends become reachable ----

  // x has been marked at y, or something under way will see to it.
  ghost predicate Will(home: map<Peer, Addr>, n: Net, x: Peer, y: Peer) {
    || (y in n.nodes && Marked(n.nodes[y], x))
    || (exists d :: d in n.inflight && WillPunch(home, d, x, y))
  }

  // d is x's punch to where y is, or goes to where x is and tells it where y is.
  predicate WillPunch(home: map<Peer, Addr>, d: Datagram, x: Peer, y: Peer) {
    && x in home && y in home
    && match d.m.op
       case Punch => d.m.sender == x && d.to == home[y]
       case ConnectResp(peer, addr) => d.to == home[x] && peer == y && addr == home[y]
       case PunchReq(peer, addr) => d.to == home[x] && peer == y && addr == home[y]
       case _ => false
  }

  ghost predicate Injective(home: map<Peer, Addr>) {
    forall x, y | x in home && y in home && home[x] == home[y] :: x == y
  }

  // Whatever a node would dial b at is where b is; what discovery says goes before what
  // the bus holds.
  predicate HoldsRight(home: map<Peer, Addr>, s: PunchState, b: Peer)
    requires b in home
  {
    if b in s.discovered then s.discovered[b] == home[b] else b in s.peerAddrs ==> s.peerAddrs[b] == home[b]
  }

  // d comes from where b is if it is b's, and names no other address for b.
  predicate SaysRight(home: map<Peer, Addr>, d: Datagram, b: Peer)
    requires b in home
  {
    && (d.m.sender == b ==> d.from == home[b])
    && match d.m.op
       case ConnectResp(peer, addr) => peer == b ==> addr == home[b]
       case PunchReq(peer, addr) => peer == b ==> addr == home[b]
       case _ => true
  }

  // Nobody is wrong about where b is.
  ghost predicate AgreedOn(home: map<Peer, Addr>, n: Net, b: Peer) {
    && b in home
    && (forall p | p in n.nodes :: HoldsRight(home, n.nodes[p], b))
    && (forall d | d in n.inflight :: SaysRight(home, d, b))
  }

  // Handling a right message makes nobody wrong about b.
  lemma HandlingAgrees(home: map<Peer, Addr>, p: Peer, s: PunchState, d: Datagram, b: Peer)
    requires b in home && p in home && HoldsRight(home, s, b) && SaysRight(home, d, b)
    ensures var (s', out) := Handles(p, Learn(s, d.m.sender, d.from), Message(d.m.sender, p, d.m.op));
            && HoldsRight(home, s', b)
            && forall x, to | x in out :: SaysRight(home, Datagram(x, to, home[p]), b)
  {
  }

  lemma DeliveryAgrees(home: map<Peer, Addr>, n: Net, i: nat, p: Peer, n': Net, b: Peer)
    requires Delivers(home, n, i, p, n') && AgreedOn(home, n, b)
    ensures AgreedOn(home, n', b)
  {
    var d := n.inflight[i];
    assert d in n.inflight;
    HandlingAgrees(home, p, n.nodes[p], d, b);
    var (s', out) := Handles(p, Learn(n.nodes[p], d.m.sender, d.from), Message(d.m.sender, p, d.m.op));
    DialledOnly(s', home[p], out);
    forall x | x in n'.inflight ensures SaysRight(home, x, b) {
      if x in Dialled(s', home[p], out) {
        assert x == Datagram(x.m, x.to, home[p]);
      } else {
        assert x in RemoveAt(n.inflight, i);
        assert x in n.inflight;
      }
    }
  }

  lemma StillInFlight<T>(ds: seq<T>, i: nat, d: T)
    requires i < |ds| && d in ds
    ensures d == ds[i] || d in RemoveAt(ds, i)
  {
    var k :| 0 <= k < |ds| && ds[k] == d;
    if k != i {
      assert RemoveAt(ds, i)[if k < i then k else k - 1] == d;
    }
  }

  lemma DeliveryKeepsWill(home: map<Peer, Addr>, n: Net, i: nat, p: Peer, n': Net, x: Peer, y: Peer)
    requires Delivers(home, n, i, p, n') && Injective(home) && Will(home, n, x, y)
    ensures Will(home, n', x, y)
  {
    var d := n.inflight[i];
    var s, m := Learn(n.nodes[p], d.m.sender, d.from), Message(d.m.sender, p, d.m.op);
    HandlingGrows(p, s, m);
    if y in n.nodes && Marked(n.nodes[y], x) {
      assert y == p ==> Marked(s, x);
    } else {
      var w :| w in n.inflight && WillPunch(home, w, x, y);
      StillInFlight(n.inflight, i, w);
      if w == d {
        PunchGoesOn(home, n, i, p, n', x, y);
      } else {
        assert w in n'.inflight;
      }
    }
  }

  lemma PunchGoesOn(home: map<Peer, Addr>, n: Net, i: nat, p: Peer, n': Net, x: Peer, y: Peer)
    requires Delivers(home, n, i, p, n') && Injective(home) && WillPunch(home, n.inflight[i], x, y)
    ensures Will(home, n', x, y)
  {
    var d := n.inflight[i];
    var s, m := Learn(n.nodes[p], d.m.sender, d.from), Message(d.m.sender, p, d.m.op);
    if d.m.op.Punch? {
      assert p == y && Marked(n'.nodes[y], x);
    } else {
      assert p == x;
      var (s', out) := Handles(x, s, m);
      var punch := Message(x, y, Punch);
      assert out == Repeat(punch, PUNCHES) && out[0] == punch;
      DialledHas(s', home[x], out, punch);
      assert WillPunch(home, Datagram(punch, home[y], home[x]), x, y);
    }
  }

  // The rendezvous has an address for b.
  predicate Knows(s: PunchState, b: Peer) { b in s.discovered || b in s.peerAddrs }

  function Request(home: map<Peer, Addr>, a: Peer, r: Peer, b: Peer): Datagram
    requires a in home && r in home
  {
    Datagram(Message(a, r, ConnectReq(b)), home[r], home[a])
  }

  // The request is still under way, or each end is or will be marked by the other.
  ghost predicate UnderWay(home: map<Peer, Addr>, n: Net, a: Peer, r: Peer, b: Peer)
    requires a in home && r in home
  {
    || Request(home, a, r, b) in n.inflight
    || (Will(home, n, a, b) && Will(home, n, b, a))
  }

  ghost predicate Coordinated(home: map<Peer, Addr>, n: Net, a: Peer, r: Peer, b: Peer) {
    && a in home && r in home && AgreedOn(home, n, b)
    && r in n.nodes && Knows(n.nodes[r], b) && UnderWay(home, n, a, r, b)
  }

  lemma DeliveryCoordinates(home: map<Peer, Addr>, n: Net, i: nat, p: Peer, n': Net, a: Peer, r: Peer, b: Peer)
    requires Delivers(home, n, i, p, n') && Injective(home) && Coordinated(home, n, a, r, b)
    ensures Coordinated(home, n', a, r, b)
  {
    var d, request := n.inflight[i], Request(home, a, r, b);
    DeliveryAgrees(home, n, i, p, n', b);
    HandlingGrows(p, Learn(n.nodes[p], d.m.sender, d.from), Message(d.m.sender, p, d.m.op));
    if request in n.inflight {
      StillInFlight(n.inflight, i, request);
      if d == request {
        RequestIsRelayed(home, n, i, p, n', a, r, b);
      } else {
        assert request in n'.inflight;
      }
    } else {
      DeliveryKeepsWill(home, n, i, p, n', a, b);
      DeliveryKeepsWill(home, n, i, p, n', b, a);
    }
  }

  // The rendezvous tells each end where the other is, at where that end is.
  lemma RequestIsRelayed(home: map<Peer, Addr>, n: Net, i: nat, p: Peer, n': Net, a: Peer, r: Peer, b: Peer)
    requires a in home && r in home && Injective(home) && AgreedOn(home, n, b)
    requires Delivers(home, n, i, p, n') && n.inflight[i] == Request(home, a, r, b)
    requires r in n.nodes && Knows(n.nodes[r], b)
    ensures Will(home, n', a, b) && Will(home, n', b, a)
  {
    assert p == r && HoldsRight(home, n.nodes[r], b);
    var s := Learn(n.nodes[r], a, home[a]);
    var toB, toA := Message(r, b, PunchReq(a, home[a])), Message(r, a, ConnectResp(b, home[b]));
    var (s', out) := Handles(r, s, Message(a, r, ConnectReq(b)));
    assert out == [toB, toA];
    DialledHas(s', home[r], out, toB);
    DialledHas(s', home[r], out, toA);
    assert WillPunch(home, Datagram(toB, home[b], home[r]), b, a);
    assert WillPunch(home, Datagram(toA, home[a], home[r]), a, b);
  }

  // Right or wrong: the rendezvous dials the target at the address discovery has for it,
  // and only without one at the address its bus holds, tells it where the request came
  // from and tells the requester the address it dialled.
  lemma DiscoveryGoesFirst(home: map<Peer, Addr>, n: Net, i: nat, r: Peer, n': Net, a: Peer, b: Peer)
    requires Delivers(home, n, i, r, n') && n.inflight[i].m.sender == a && n.inflight[i].m.op == ConnectReq(b)
    requires a != b && Knows(n.nodes[r], b)
    ensures var seen := n.inflight[i].from;
            var held := if b in n.nodes[r].discovered then n.nodes[r].discovered[b] else n.nodes[r].peerAddrs[b];
            && Datagram(Message(r, b, PunchReq(a, seen)), held, home[r]) in n'.inflight
            && Datagram(Message(r, a, ConnectResp(b, held)), seen, home[r]) in n'.inflight
  {
    var d := n.inflight[i];
    var held := if b in n.nodes[r].discovered then n.nodes[r].discovered[b] else n.nodes[r].peerAddrs[b];
    var (s', out) := Handles(r, Learn(n.nodes[r], a, d.from), Message(a, r, ConnectReq(b)));
    var toB, toA := Message(r, b, PunchReq(a, d.from)), Message(r, a, ConnectResp(b, held));
    assert out == [toB, toA];
    DialledHas(s', home[r], out, toB);
    DialledHas(s', home[r], out, toA);
  }

  ghost predicate Lossless(home: map<Peer, Addr>, ns: seq<Net>) {
    |ns| > 0 && forall t | 0 <= t < |ns| - 1 :: DeliversSome(home, ns[t], ns[t + 1])
  }

  lemma {:induction false} StaysCoordinated(home: map<Peer, Addr>, ns: seq<Net>, t: nat, a: Peer, r: Peer, b: Peer)
    requires Lossless(home, ns) && Injective(home) && t < |ns| && Coordinated(home, ns[0], a, r, b)
    ensures Coordinated(home, ns[t], a, r, b)
  {
    if t > 0 {
      StaysCoordinated(home, ns, t - 1, a, r, b);
      assert DeliversSome(home, ns[t - 1], ns[t - 1 + 1]);
      var i: nat, p :| Delivers(home, ns[t - 1], i, p, ns[t]);
      DeliveryCoordinates(home, ns[t - 1], i, p, ns[t], a, r, b);
    }
  }

  // A connect request from where a is to where the rendezvous is, which knows the target
  // and about which nobody is wrong: played out without loss and in any order, with
  // every datagram going only where it was dialled, it leaves each end reachable to the
  // other and whoever waited for it told.
  lemma HandshakeCompletes(home: map<Peer, Addr>, ns: seq<Net>, a: Peer, r: Peer, b: Peer)
    requires Lossless(home, ns) && Injective(home) && ns[|ns| - 1].inflight == []
    requires a in home && r in home && AgreedOn(home, ns[0], b)
    requires Request(home, a, r, b) in ns[0].inflight && r in ns[0].nodes && Knows(ns[0].nodes[r], b)
    ensures var end := ns[|ns| - 1].nodes;
            a in end && b in end && Marked(end[a], b) && Marked(end[b], a)
  {
    StaysCoordinated(home, ns, |ns| - 1, a, r, b);
  }
}
