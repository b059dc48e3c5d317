/** client/rabbitmq/sender.go: the client's sender, which connects when it has to and again after a failure. */
module ClientSender {
  import opened Numbers
  import opened Texts
  import opened ClientContract
  import Base64

  /** How an attempt to connect ends: the broker cannot be reached; or the channel, its confirm mode or the queue cannot
      be set up; or all is well. */
  datatype Dialling = Opens | Unreachable | Unprepared

  /** How a publish ends: acknowledged, rejected, no confirmation in time, or not sent at all. */
  datatype Answer = Acked | Nacked | NoConfirm | NotPublished

  /** What a confirmation vouches for. */
  datatype Published = Published(id: string, body: Wire)

  /** The broker: its open connections and channels (at most one channel each, by the connection's number), the number
      of the next connection, and the messages it has confirmed. */
  datatype Net = Net(open: set<nat>, channels: set<nat>, next: nat, confirmed: seq<Published>)

  /** The sender's two fields and the broker. */
  datatype State = State(conn: Option<nat>, channel: Option<nat>, net: Net)

  const START := State(None, None, Net({}, {}, 0, []))

  datatype Op =
    | Send(email: Mail, newId: string, dial: Dialling, answer: Answer)
    | HealthCheck(dial: Dialling, queueExists: bool)
    | Close
    | Drop(connection: nat)
    | DropChannel(connection: nat)

  // ---------------------------------------------------------------- what each call does

  function Closed(net: Net, c: nat): Net { net.(open := net.open - {c}, channels := net.channels - {c}) }

  function Without(net: Net, channel: Option<nat>, conn: Option<nat>): Net {
    var n := if channel.Some? && channel.value in net.channels
      then net.(channels := net.channels - {channel.value})
      else net;
    if conn.Some? && conn.value in n.open then Closed(n, conn.value) else n
  }

  function Reset(s: State): State { State(None, None, Without(s.net, s.channel, s.conn)) }

  predicate Usable(s: State) {
    s.channel.Some? && s.channel.value in s.net.channels && s.conn.Some? && s.conn.value in s.net.open
  }

  /** The state with a channel, if there is one. */
  function Ensure(s: State, dial: Dialling): State {
    if Usable(s) then s
    else
      var bare := Reset(s);
      match dial
      case Unreachable => bare
      case Unprepared => bare.(net := bare.net.(next := bare.net.next + 1))
      case Opens =>
        var c := bare.net.next;
        State(Some(c), Some(c), bare.net.(open := bare.net.open + {c}, channels := bare.net.channels + {c},
          next := c + 1))
  }

  predicate Connects(s: State, dial: Dialling) { Usable(s) || dial.Opens? }

  /** Whether Send returns nil. */
  predicate Sends(s: State, op: Op)
    requires op.Send?
  {
    Prepared(op.email, op.newId).Some? && Connects(s, op.dial) && op.answer.Acked?
  }

  function Message(op: Op): Published
    requires op.Send? && Prepared(op.email, op.newId).Some?
  {
    var ready := Prepared(op.email, op.newId).value; Published(ready.id, Marshalled(ready))
  }

  function Confirm(s: State, message: Published): State { s.(net := s.net.(confirmed := s.net.confirmed + [message])) }

  function After(s: State, op: Op): State {
    match op
    case Send(email, newId, dial, answer) =>
      if Prepared(email, newId).None? then s
      else if !Connects(s, dial) then Ensure(s, dial)
      else if answer.Acked? then Confirm(Ensure(s, dial), Message(op))
      else Reset(Ensure(s, dial))
    case HealthCheck(dial, queueExists) =>
      if Connects(s, dial) && !queueExists then Reset(Ensure(s, dial)) else Ensure(s, dial)
    case Close => Reset(s)
    case Drop(c) => s.(net := Closed(s.net, c))
    case DropChannel(c) => s.(net := s.net.(channels := s.net.channels - {c}))
  }

  // ---------------------------------------------------------------- the code

  class Broker {
    var net: Net

    constructor ()
      ensures net == START.net
    {
      net := START.net;
    }

    method Dial(dial: Dialling) returns (conn: Option<nat>)
      modifies this
      ensures dial.Unreachable? ==> conn.None? && net == old(net)
      ensures !dial.Unreachable? ==> conn == Some(old(net).next)
      ensures !dial.Unreachable? ==>
                net == old(net).(open := old(net).open + {old(net).next}, next := old(net).next + 1)
    {
      if dial.Unreachable? { return None; }
      conn := Some(net.next);
      net := net.(open := net.open + {net.next}, next := net.next + 1);
    }

    /** Open a channel on c, put it in confirm mode and declare the queue. */
    method Prepare(c: nat, dial: Dialling) returns (ok: bool)
      modifies this
      ensures ok == dial.Opens? && net == if ok then old(net).(channels := old(net).channels + {c}) else old(net)
    {
      ok := dial.Opens?;
      if ok { net := net.(channels := net.channels + {c}); }
    }

    method CloseChannel(c: nat)
      modifies this
      ensures net == old(net).(channels := old(net).channels - {c})
    {
      net := net.(channels := net.channels - {c});
    }

    method CloseConnection(c: nat)
      modifies this
      ensures net == Closed(old(net), c)
    {
      net := net.(open := net.open - {c}, channels := net.channels - {c});
    }

    method Publish(message: Published, answer: Answer) returns (failed: bool)
      modifies this
      ensures failed == !answer.Acked?
      ensures net == if answer.Acked? then old(net).(confirmed := old(net).confirmed + [message]) else old(net)
    {
      if answer.Acked? { net := net.(confirmed := net.confirmed + [message]); }
      failed := !answer.Acked?;
    }
  }

  class Sender {
    const broker: Broker
    var conn: Option<nat>
    var channel: Option<nat>

    constructor (broker: Broker)
      ensures this.broker == broker && conn == None && channel == None
    {
      this.broker, conn, channel := broker, None, None;
    }

    function View(): State
      reads this, broker
    {
      State(conn, channel, broker.net)
    }

    method DoReset()
      modifies this, broker
      ensures View() == Reset(old(View()))
    {
      if channel.Some? && channel.value in broker.net.channels { broker.CloseChannel(channel.value); }
      if conn.Some? && conn.value in broker.net.open { broker.CloseConnection(conn.value); }
      conn, channel := None, None;
    }

    method EnsureChannel(dial: Dialling) returns (ok: bool)
      requires Inv(View())
      modifies this, broker
      ensures View() == Ensure(old(View()), dial) && ok == Connects(old(View()), dial)
    {
      if channel.Some? && channel.value in broker.net.channels && conn.Some? && conn.value in broker.net.open {
        return true;
      }
      ResetKeeps(View());
      DoReset();
      var dialled := broker.Dial(dial);
      if dialled.None? { return false; }
      var prepared := broker.Prepare(dialled.value, dial);
      if !prepared {
        broker.CloseConnection(dialled.value);
        return false;
      }
      conn, channel := dialled, dialled;
      ok := true;
    }

    method Send(email: Mail, newId: string, dial: Dialling, answer: Answer) returns (ok: bool)
      requires Inv(View())
      modifies this, broker
      ensures View() == After(old(View()), Op.Send(email, newId, dial, answer))
      ensures ok == Sends(old(View()), Op.Send(email, newId, dial, answer))
    {
      var ready := ClientContract.Prepare(email, newId);
      if ready.None? { return false; }
      var body := MarshalJson(ready.value);
      var connected := EnsureChannel(dial);
      if !connected { return false; }
      var failed := broker.Publish(Published(ready.value.id, body), answer);
      if failed {
        DoReset();
        return false;
      }
      ok := true;
    }

    method HealthCheck(dial: Dialling, queueExists: bool) returns (ok: bool)
      requires Inv(View())
      modifies this, broker
      ensures View() == After(old(View()), Op.HealthCheck(dial, queueExists))
      ensures ok == (Connects(old(View()), dial) && queueExists)
    {
      var connected := EnsureChannel(dial);
      if !connected { return false; }
      if !queueExists {
        DoReset();
        return false;
      }
      ok := true;
    }

    method Close()
      modifies this, broker
      ensures View() == After(old(View()), Op.Close)
    {
      DoReset();
    }
  }

  // ---------------------------------------------------------------- whole runs

  /** The sender holds a connection and its channel, or neither; the only open connection is the one it holds. */
  predicate Inv(s: State) {
    && s.conn == s.channel
    && s.net.channels <= s.net.open <= (if s.conn.Some? then {s.conn.value} else {})
    && (forall c :: c in s.net.open ==> c < s.net.next)
  }

  lemma {:induction false} ResetKeeps(s: State)
    requires Inv(s)
    ensures Inv(Reset(s)) && Reset(s).net.open == {} && Reset(s).net.channels == {}
    ensures Reset(s).net.next == s.net.next && Reset(s).net.confirmed == s.net.confirmed
  {
  }

  lemma {:induction false} EnsureKeeps(s: State, dial: Dialling)
    requires Inv(s)
    ensures Inv(Ensure(s, dial)) && Ensure(s, dial).net.confirmed == s.net.confirmed
    ensures if Connects(s, dial)
            then Usable(Ensure(s, dial))
            else Ensure(s, dial).conn == None && Ensure(s, dial).net.open == {}
  {
  }

  /** Past validation a call that fails leaves no connection open and forgets what it held; so does Close. A call that
      succeeds leaves a usable channel. */
  lemma {:induction false} CallLeaves(s: State, op: Op)
    requires Inv(s)
    ensures Inv(After(s, op))
    ensures op.Close? || (op.Send? && Prepared(op.email, op.newId).Some? && !Sends(s, op))
            || (op.HealthCheck? && !(Connects(s, op.dial) && op.queueExists)) ==>
              After(s, op).net.open == {} && After(s, op).conn == None && After(s, op).channel == None
    ensures (op.Send? && Sends(s, op)) || (op.HealthCheck? && Connects(s, op.dial) && op.queueExists) ==>
              Usable(After(s, op))
    ensures op.Send? && Prepared(op.email, op.newId).None? ==> After(s, op) == s
  {
    ResetKeeps(s);
    if op.Send? || op.HealthCheck? {
      EnsureKeeps(s, op.dial);
      ResetKeeps(Ensure(s, op.dial));
    }
  }

  /** A call adds its message to the confirmed ones exactly when it is a send that returns nil. */
  lemma {:induction false} CallConfirms(s: State, op: Op)
    requires Inv(s)
    ensures After(s, op).net.confirmed == s.net.confirmed + if op.Send? && Sends(s, op) then [Message(op)] else []
  {
  }

  /** The connection and the channel held are both open. */
  ghost predicate HoldsOpen(s: State) {
    exists c, ch :: s.conn == Some(c) && s.channel == Some(ch) && c in s.net.open && ch in s.net.channels
  }

  /** A send returns nil exactly when the email is complete, an open channel is held or can be opened, and the broker
      acknowledges the message. */
  lemma {:induction false} SendsIff(s: State, op: Op)
    requires op.Send?
    ensures Sends(s, op) <==> Complete(op.email) && (HoldsOpen(s) || op.dial.Opens?) && op.answer.Acked?
  {
    PreparedKeeps(op.email, op.newId);
    HoldsOpenIff(s);
  }

  lemma {:induction false} HoldsOpenIff(s: State)
    ensures Usable(s) <==> HoldsOpen(s)
  {
  }

  /** An open channel is used as it is; without one, a send or a health check dials at most once, and only past
      validation. */
  lemma {:induction false} DialsOnlyWhenNeeded(s: State, op: Op)
    requires Inv(s) && (op.Send? || op.HealthCheck?)
    ensures var s' := After(s, op);
            if HoldsOpen(s) || (op.Send? && !Complete(op.email)) || op.dial.Unreachable?
            then s'.net.next == s.net.next else s'.net.next == s.net.next + 1
    ensures HoldsOpen(s) && (op.Send? ==> Sends(s, op)) && (op.HealthCheck? ==> op.queueExists) ==>
              After(s, op).(net := s.net) == s && After(s, op).net.open == s.net.open
  {
    HoldsOpenIff(s);
    if op.Send? { PreparedKeeps(op.email, op.newId); }
    ResetKeeps(s);
  }

  /** What is published for an email: under its own id or, where that is blank, the new one, a body from which the
      server reads the same id and the email's HTML. */
  lemma {:induction false} MessageCarriesId(op: Op)
    requires op.Send? && Prepared(op.email, op.newId).Some?
    ensures var m := Message(op); var data := Decode(m.body);
            && m.id == (if NotBlank(op.email.id) then op.email.id else op.newId)
            && data.Some? && data.value.id == m.id
            && Base64.DecodeString(data.value.body) == Some(op.email.html)
  {
    PreparedKeeps(op.email, op.newId);
    WireContract(Prepared(op.email, op.newId).value);
  }

  function Run(ops: seq<Op>): State {
    if |ops| == 0 then START else After(Run(ops[..|ops| - 1]), ops[|ops| - 1])
  }

  /** The messages of the sends that returned nil, in order. */
  function Sent(ops: seq<Op>): seq<Published> {
    if |ops| == 0 then []
    else
      var before, op := ops[..|ops| - 1], ops[|ops| - 1];
      Sent(before) + if op.Send? && Sends(Run(before), op) then [Message(op)] else []
  }

  /** Over any sequence of calls and broker failures: never more than one connection is open, and it is the one held,
      with its channel; and the sends that returned nil are exactly the messages the broker confirmed, ids and bodies,
      in order. */
  lemma {:induction false} SenderKeepsItsConnection(ops: seq<Op>)
    ensures Inv(Run(ops)) && |Run(ops).net.open| <= 1
    ensures Run(ops).net.confirmed == Sent(ops)
    decreases |ops|
  {
    if |ops| > 0 {
      var before, op := ops[..|ops| - 1], ops[|ops| - 1];
      SenderKeepsItsConnection(before);
      CallLeaves(Run(before), op);
      CallConfirms(Run(before), op);
    }
    HoldsAtMostOne(Run(ops));
  }

  lemma {:induction false} HoldsAtMostOne(s: State)
    requires Inv(s)
    ensures |s.net.open| <= 1
  {
    if s.conn.Some? && s.conn.value in s.net.open {
      assert s.net.open == {s.conn.value};
    } else {
      assert s.net.open == {};
    }
  }
}
