/**
 Simultaneous connection set-up between two peers (btl_tcp2_endpoint.c): each may start a connection, and the
 one with the lower name wins if both do.
 */
module Connect {

  /** The states of an endpoint. */
  datatype State = Closed | Connecting | ConnectAck | Connected

  /** sd is the connection the endpoint uses, -1 for none. */
  datatype Endpoint = Endpoint(state: State, sd: int)

  /** A connection: who started it, whether the identifier was sent by its initiator and taken by the
      listener of the other peer, whether that one acknowledged it, and which ends are still open. */
  datatype Connection = Connection(byLow: bool, idSent: bool, idTaken: bool,
                                      ackSent: bool, initOpen: bool, acceptOpen: bool)

  /** Two peers; low is the one whose name compares lower. */
  datatype System = System(low: Endpoint, high: Endpoint, conns: seq<Connection>)

  const START := System(Endpoint(Closed, -1), Endpoint(Closed, -1), [])

  function Of(s: System, low: bool): Endpoint { if low then s.low else s.high }

  function With(s: System, low: bool, e: Endpoint): System { if low then s.(low := e) else s.(high := e) }

  datatype Action =
    | Start(low: bool, atOnce: bool)
    | Complete(low: bool)
    | Accept(low: bool, c: nat)
    | Ack(low: bool)
    | Eof(low: bool)

  /** The place of a peer's name in the order of names. */
  function Name(low: bool): int { if low then 0 else 1 }

  /** The rule of mca_btl_tcp2_endpoint_accept. */
  predicate Accepts(e: Endpoint, remote: int, local: int) {
    e.sd < 0 || (e.state != Connected && remote < local)
  }

  /** The end of connection c that a peer holds. */
  function EndOpen(c: Connection, low: bool): bool { if c.byLow == low then c.initOpen else c.acceptOpen }

  /** mca_btl_tcp2_endpoint_close. */
  function CloseEnd(s: System, low: bool): System {
    var e := Of(s, low);
    if !(0 <= e.sd < |s.conns|) then s
    else
      var c := s.conns[e.sd];
      With(s.(conns := s.conns[e.sd := if c.byLow == low then c.(initOpen := false) else c.(acceptOpen := false)]),
        low, Endpoint(Closed, -1))
  }

  predicate Enabled(s: System, a: Action) {
    var e := Of(s, a.low);
    match a
    case Start(_, _) => e.state == Closed
    case Complete(_) => e.state == Connecting
    case Accept(low, c) => c < |s.conns| && s.conns[c].byLow != low && s.conns[c].idSent && !s.conns[c].idTaken
    case Ack(_) => e.state == ConnectAck && 0 <= e.sd < |s.conns| && s.conns[e.sd].ackSent
    case Eof(low) =>
      && (e.state == ConnectAck || e.state == Connected) && 0 <= e.sd < |s.conns| && !EndOpen(s.conns[e.sd], !low)
      && (e.state == ConnectAck ==> !s.conns[e.sd].ackSent)
  }

  function Next(s: System, a: Action): System
    requires Enabled(s, a)
  {
    var e := Of(s, a.low);
    match a
    case Start(low, atOnce) =>
      With(s.(conns := s.conns + [Connection(low, atOnce, false, false, true, true)]),
        low, Endpoint(if atOnce then ConnectAck else Connecting, |s.conns|))
    case Complete(low) =>
      if 0 <= e.sd < |s.conns|
        then With(s.(conns := s.conns[e.sd := s.conns[e.sd].(idSent := true)]), low, e.(state := ConnectAck)) else s
    case Accept(low, c) =>
      if Accepts(e, Name(!low), Name(low)) then
        var t := CloseEnd(s, low);
        With(t.(conns := t.conns[c := t.conns[c].(idTaken := true, ackSent := true)]), low, Endpoint(Connected, c))
      else s.(conns := s.conns[c := s.conns[c].(idTaken := true, acceptOpen := false)])
    case Ack(low) => With(s, low, e.(state := Connected))
    case Eof(low) => CloseEnd(s, low)
  }

  /** Every run of the two peers. */
  ghost predicate Run(states: seq<System>, actions: seq<Action>) {
    && |states| == |actions| + 1 && states[0] == START
    && forall i :: 0 <= i < |actions| ==> Enabled(states[i], actions[i]) && states[i + 1] == Next(states[i], actions[i])
  }

  // ---------------------------------------------------------------- what every step keeps

  /** What an endpoint's state says about its connection. */
  ghost predicate Local(s: System, low: bool) {
    var e := Of(s, low);
    && (e.state == Closed <==> e.sd == -1) && -1 <= e.sd < |s.conns|
    && (e.state == Connecting ==> s.conns[e.sd].byLow == low && !s.conns[e.sd].idSent)
    && (e.state == ConnectAck ==> s.conns[e.sd].byLow == low && s.conns[e.sd].idSent)
    && (e.state == Connected ==> s.conns[e.sd].ackSent && s.conns[e.sd].idTaken)
  }

  /** What a connection's state says about the endpoints. The lower peer starts at most one connection and
      keeps it; a connection that was acknowledged is the one its acceptor is connected with; the higher peer
      keeps an attempt that the lower one accepted and gives one up only once the lower one has a connection. */
  ghost predicate Global(s: System, c: nat)
    requires c < |s.conns|
  {
    var k := s.conns[c];
    && (k.ackSent ==> k.idTaken) && (k.idTaken ==> k.idSent)
    && (k.initOpen <==> Of(s, k.byLow).sd == c)
    && (!k.idTaken ==> k.acceptOpen)
    && (k.idTaken ==> (k.acceptOpen <==> Of(s, !k.byLow).sd == c) && (k.acceptOpen <==> k.ackSent))
    && (k.byLow ==> s.low.sd == c && (k.idTaken ==> k.ackSent))
    && (k.ackSent ==> Of(s, !k.byLow) == Endpoint(Connected, c))
    && (!k.byLow && k.ackSent ==> s.high.sd == c)
    && (!k.byLow && (k.idTaken || s.high.sd != c) ==> s.low.sd >= 0)
  }

  ghost predicate Inv(s: System) {
    Local(s, true) && Local(s, false) && forall c :: 0 <= c < |s.conns| ==> Global(s, c)
  }

  lemma StartInv(s: System, a: Action)
    requires Inv(s) && a.Start? && Enabled(s, a)
    ensures Inv(Next(s, a))
  {
    var t := Next(s, a);
    forall c | 0 <= c < |t.conns| ensures Global(t, c) {
      if c < |s.conns| { assert Global(s, c); }
    }
  }

  lemma CompleteInv(s: System, a: Action)
    requires Inv(s) && a.Complete? && Enabled(s, a)
    ensures Inv(Next(s, a))
  {
    var t := Next(s, a);
    forall c | 0 <= c < |t.conns| ensures Global(t, c) {
      assert Global(s, c);
    }
  }

  /** The lower peer accepts only while it has no connection of its own; the higher one replaces its own. */
  lemma AcceptInv(s: System, a: Action)
    requires Inv(s) && a.Accept? && Enabled(s, a)
    ensures Inv(Next(s, a))
  {
    var t := Next(s, a);
    assert Global(s, a.c);
    assert s.high.sd < 0 || Global(s, s.high.sd);
    forall c | 0 <= c < |t.conns| ensures Global(t, c) {
      assert Global(s, c);
    }
  }

  lemma AckInv(s: System, a: Action)
    requires Inv(s) && a.Ack? && Enabled(s, a)
    ensures Inv(Next(s, a))
  {
    var t := Next(s, a);
    assert Global(s, Of(s, a.low).sd);
    forall c | 0 <= c < |t.conns| ensures Global(t, c) {
      assert Global(s, c);
    }
  }

  /** Only the higher peer ever finds its attempt closed, because the lower one rejected it. */
  lemma EofInv(s: System, a: Action)
    requires Inv(s) && a.Eof? && Enabled(s, a)
    ensures Inv(Next(s, a))
  {
    var t := Next(s, a);
    assert Global(s, Of(s, a.low).sd);
    forall c | 0 <= c < |t.conns| ensures Global(t, c) {
      assert Global(s, c);
    }
  }

  lemma NextInv(s: System, a: Action)
    requires Inv(s) && Enabled(s, a)
    ensures Inv(Next(s, a))
  {
    hide *;
    match a
    case Start(_, _) => StartInv(s, a);
    case Complete(_) => CompleteInv(s, a);
    case Accept(_, _) => AcceptInv(s, a);
    case Ack(_) => AckInv(s, a);
    case Eof(_) => EofInv(s, a);
  }

  lemma {:induction false} RunInv(states: seq<System>, actions: seq<Action>)
    requires Run(states, actions)
    ensures Inv(states[|actions|])
    decreases |actions|
  {
    if actions != [] {
      var n := |actions| - 1;
      RunInv(states[..n + 1], actions[..n]);
      NextInv(states[n], actions[n]);
    }
  }

  // ---------------------------------------------------------------- the results

  /** In every reachable state, two connected endpoints hold the two ends of one connection. */
  lemma SameConnection(states: seq<System>, actions: seq<Action>)
    requires Run(states, actions)
    ensures var s := states[|actions|];
      s.low.state == Connected && s.high.state == Connected ==>
        0 <= s.low.sd == s.high.sd < |s.conns| && EndOpen(s.conns[s.low.sd], true) && EndOpen(s.conns[s.low.sd], false)
  {
    RunInv(states, actions);
    var s := states[|actions|];
    if s.low.state == Connected && s.high.state == Connected {
      assert Global(s, s.low.sd) && Global(s, s.high.sd);
    }
  }

  /** The higher peer accepts every connection that the lower peer still has open. */
  lemma LowerWins(states: seq<System>, actions: seq<Action>, c: nat)
    requires Run(states, actions) && c < |states[|actions|].conns|
    requires states[|actions|].conns[c].byLow && states[|actions|].conns[c].initOpen
    requires !states[|actions|].conns[c].idTaken
    ensures Accepts(states[|actions|].high, Name(true), Name(false))
  {
    RunInv(states, actions);
    var s := states[|actions|];
    assert Global(s, c);
    assert s.high.sd < 0 || Global(s, s.high.sd);
  }

  /** No connected endpoint finds its connection closed by the peer. */
  lemma StaysConnected(states: seq<System>, actions: seq<Action>, low: bool)
    requires Run(states, actions)
    ensures Of(states[|actions|], low).state == Connected ==> !Enabled(states[|actions|], Eof(low))
  {
    RunInv(states, actions);
    var s := states[|actions|];
    if Of(s, low).state == Connected { assert Global(s, Of(s, low).sd); }
  }

  /** The set-up cannot get stuck: once a connection was started, the two peers come to rest only when both
      are connected. */
  lemma Settles(states: seq<System>, actions: seq<Action>)
    requires Run(states, actions)
    requires states[|actions|].conns != []
    requires forall a: Action :: Enabled(states[|actions|], a) ==> a.Start?
    ensures states[|actions|].low.state == Connected && states[|actions|].high.state == Connected
  {
    RunInv(states, actions);
    var s := states[|actions|];
    AtRest(s, true);
    AtRest(s, false);
    assert Global(s, 0);
    assert s.low.sd < 0 || Global(s, s.low.sd);
    assert s.high.sd < 0 || Global(s, s.high.sd);
  }

  /** An endpoint at rest is closed or connected. */
  lemma AtRest(s: System, low: bool)
    requires Inv(s) && forall a: Action :: Enabled(s, a) ==> a.Start?
    ensures Of(s, low).state == Closed || Of(s, low).state == Connected
  {
    var e := Of(s, low);
    assert !Enabled(s, Complete(low)) && !Enabled(s, Ack(low)) && !Enabled(s, Eof(low));
    assert e.sd < 0 || (Global(s, e.sd) && !Enabled(s, Accept(!low, e.sd)));
  }

  // ---------------------------------------------------------------- coming to rest

  /** What a connection still has before it: its identifier to be sent and taken. */
  function Ahead(k: Connection): nat { (if k.idSent then 0 else 1) + (if k.idTaken then 0 else 2) }

  function AheadAll(conns: seq<Connection>): nat {
    if conns == [] then 0 else AheadAll(conns[..|conns| - 1]) + Ahead(conns[|conns| - 1])
  }

  function Rank(e: Endpoint): nat {
    match e.state
    case Closed => 0
    case Connected => 1
    case _ => 2
  }

  /** Every step but the start of a connection makes this smaller. */
  function Measure(s: System): nat { AheadAll(s.conns) + Rank(s.low) + Rank(s.high) }

  lemma {:induction false} AheadUpdate(conns: seq<Connection>, c: nat, k: Connection)
    requires c < |conns|
    ensures AheadAll(conns[c := k]) == AheadAll(conns) - Ahead(conns[c]) + Ahead(k)
  {
    var n := |conns| - 1;
    if c == n {
      assert conns[c := k][..n] == conns[..n];
    } else {
      AheadUpdate(conns[..n], c, k);
      assert conns[c := k][..n] == conns[..n][c := k];
    }
  }

  /** Closing an end does not touch what the connection has before it. */
  lemma CloseMeasure(s: System, low: bool)
    ensures |CloseEnd(s, low).conns| == |s.conns| && AheadAll(CloseEnd(s, low).conns) == AheadAll(s.conns)
    ensures Of(CloseEnd(s, low), !low) == Of(s, !low)
    ensures forall c :: 0 <= c < |s.conns| ==> Ahead(CloseEnd(s, low).conns[c]) == Ahead(s.conns[c])
    ensures 0 <= Of(s, low).sd < |s.conns| ==> Of(CloseEnd(s, low), low) == Endpoint(Closed, -1)
  {
    var e := Of(s, low);
    if 0 <= e.sd < |s.conns| { AheadUpdate(s.conns, e.sd, CloseEnd(s, low).conns[e.sd]); }
  }

  lemma StepMeasure(s: System, a: Action)
    requires Inv(s) && Enabled(s, a)
    ensures if a.Start? then Measure(Next(s, a)) <= Measure(s) + 5 else Measure(Next(s, a)) < Measure(s)
  {
    hide Global;
    var t, e := Next(s, a), Of(s, a.low);
    CloseMeasure(s, a.low);
    match a
    case Start(_, _) => assert t.conns[..|t.conns| - 1] == s.conns;
    case Complete(_) => AheadUpdate(s.conns, e.sd, t.conns[e.sd]);
    case Accept(low, c) =>
      if Accepts(e, Name(!low), Name(low)) {
        AheadUpdate(CloseEnd(s, low).conns, c, t.conns[c]);
      } else {
        AheadUpdate(s.conns, c, t.conns[c]);
      }
    case Ack(_) =>
    case Eof(_) =>
  }

  function Starts(actions: seq<Action>): nat {
    if actions == [] then 0 else Starts(actions[..|actions| - 1]) + if actions[|actions| - 1].Start? then 1 else 0
  }

  /** The peers come to rest: in a run with n connection attempts at most 5n other steps are taken. With Settles, a
      run that cannot be continued without a further attempt has connected the peers. */
  lemma {:induction false} ComesToRest(states: seq<System>, actions: seq<Action>)
    requires Run(states, actions)
    ensures |actions| - Starts(actions) + Measure(states[|actions|]) <= 5 * Starts(actions)
    decreases |actions|
  {
    if actions != [] {
      var n := |actions| - 1;
      ComesToRest(states[..n + 1], actions[..n]);
      RunInv(states[..n + 1], actions[..n]);
      StepMeasure(states[n], actions[n]);
    }
  }
}
