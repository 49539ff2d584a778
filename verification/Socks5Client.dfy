/**
 Socks5ClientImpl: the handlers that build the requests and move the handshake on.
 */
module Socks5Client {
  import opened Socks5

  class Socks5ClientImpl {
    const proxy: Proxy
    var status: Status
    var received: Bytes
    var reading: bool
    var wire: seq<Exchange>
    var outcomes: seq<int>
    var alive: bool

    // The client as a value.
    function Value(): Client
      reads this
    {
      Client(proxy, status, received, reading, wire, outcomes, alive)
    }

    constructor (p: Proxy)
      requires IsProxy(p)
      ensures Value() == Fresh(p) && Inv(Value())
    {
      proxy := p;
      status, received, reading, wire, outcomes, alive := Status.Init, [], false, [], [], true;
    }

    method DoReceiveData()
      modifies this`reading
      ensures reading
    {
      reading := true;
    }

    method DoSendData(buffer: Bytes)
      modifies this`wire
      ensures wire == old(wire) + [Exchange(buffer, [])]
    {
      wire := wire + [Exchange(buffer, [])];
    }

    // The delegate drops the client when the callback returns.
    method OnSocks5Handshake(code: int)
      modifies this`outcomes, this`alive
      ensures Value() == Report(old(Value()), code)
    {
      outcomes := outcomes + [code];
      alive := false;
    }

    // Connect does nothing but for a fresh client.
    method Connect()
      requires Inv(Value())
      modifies this
      ensures Value() == Begin(old(Value())) && Inv(Value())
    {
      if status != Status.Init {
        return;
      }
      Loop([]);
    }

    // LoopSocks5Handshake.
    method Loop(data: Bytes)
      requires IsProxy(proxy) && (status == Hello || status == AuthReq || status == ConSvr ==> wire != [])
      modifies this
      ensures old(status) == Status.Init ==> Value() == Send(old(Value()), Greeting(proxy), Hello)
      ensures old(status) == NeedAuth ==> Value() == Send(old(Value()), AuthRequest(proxy), AuthReq)
      ensures old(status) == AuthSuccess ==> Value() == Send(old(Value()), ConnectRequest(proxy), ConSvr)
      ensures old(status) == Hello || old(status) == AuthReq || old(status) == ConSvr ==>
                Value() == Handle(old(Value()), data)
      decreases if status == Hello then 4 else if status == AuthReq then 3 else 1
    {
      match status {
        case Init => DoSendHello();
        case Hello => HandleHelloReply(data);
        case NeedAuth => DoSocks5Auth();
        case AuthSuccess => DoConnectMyServer();
        case AuthReq => HandleSocks5Auth(data);
        case ConSvr => HandleConnectBusinessServer(data);
        case _ =>
      }
    }

    method DoSendHello()
      modifies this
      ensures Value() == Send(old(Value()), Greeting(proxy), Hello)
      decreases 0
    {
      var chosen: Byte := if proxy.username == [] || proxy.password == [] then 0 else 2;
      DoSendData([5, 1, chosen]);
      status := Hello;
      DoReceiveData();
    }

    // received_data_.append; the bytes are also the server's reply so far.
    method Append(data: Bytes)
      requires wire != []
      modifies this`received, this`reading, this`wire
      ensures Value() == Receive(old(Value()), data)
    {
      reading := false;
      received := received + data;
      var n := |wire| - 1;
      wire := wire[n := Exchange(wire[n].request, wire[n].reply + data)];
    }

    method HandleHelloReply(data: Bytes)
      requires IsProxy(proxy) && wire != [] && status == Hello
      modifies this
      ensures Value() == Handle(old(Value()), data)
      decreases 2
    {
      Append(data);
      if |received| < 2 {
        DoReceiveData();
        return;
      }
      var ver, chosen := received[0], received[1];
      if ver != 5 {
        OnSocks5Handshake(-1);
        return;
      }
      if chosen == 0 {
        status := AuthSuccess;
      } else if chosen == 2 {
        status := NeedAuth;
      } else {
        OnSocks5Handshake(-1);
        return;
      }
      received := [];
      Loop([]);
    }

    method DoSocks5Auth()
      modifies this
      ensures Value() == Send(old(Value()), AuthRequest(proxy), AuthReq)
      decreases 0
    {
      var buf: Bytes := [1];
      var len := |proxy.username| % 256;
      buf := buf + [len as Byte];
      buf := buf + proxy.username[..len];
      len := |proxy.password| % 256;
      buf := buf + [len as Byte];
      buf := buf + proxy.password[..len];
      assert buf == AuthRequest(proxy);
      DoSendData(buf);
      status := AuthReq;
      DoReceiveData();
    }

    method HandleSocks5Auth(data: Bytes)
      requires IsProxy(proxy) && wire != [] && status == AuthReq
      modifies this
      ensures Value() == Handle(old(Value()), data)
      decreases 2
    {
      Append(data);
      if |received| < 2 {
        DoReceiveData();
        return;
      }
      if received[0] != 1 || received[1] != 0 {
        OnSocks5Handshake(-1);
        return;
      }
      received := [];
      status := AuthSuccess;
      Loop([]);
    }

    method DoConnectMyServer()
      requires IsProxy(proxy)
      modifies this
      ensures Value() == Send(old(Value()), ConnectRequest(proxy), ConSvr)
      decreases 0
    {
      var buf: Bytes := [5, 1, 0, AddressType(proxy)];
      match proxy.kind {
        case V4(_) => buf := buf + Zeros(4);
        case V6(_) => buf := buf + Zeros(16);
        case HostName =>
          var len := |proxy.server| % 256;
          buf := buf + [len as Byte];
          buf := buf + proxy.server[..len];
      }
      buf := buf + [(proxy.port / 256) as Byte, (proxy.port % 256) as Byte];
      assert buf == ConnectRequest(proxy);
      DoSendData(buf);
      status := ConSvr;
      DoReceiveData();
    }

    method HandleConnectBusinessServer(data: Bytes)
      requires IsProxy(proxy) && wire != [] && status == ConSvr
      modifies this
      ensures Value() == Handle(old(Value()), data)
      decreases 0
    {
      Append(data);
      if |received| < 4 {
        DoReceiveData();
        return;
      }
      var atyp := received[3];
      if atyp == 1 && |received| < 10 {
        return;
      }
      var need := 7 + HostLength(received);
      if atyp == 3 && (need < 0 || |received| < need) {
        return;
      }
      if atyp == 4 && |received| < 22 {
        return;
      }
      if received[0] != 5 || received[1] != 0 {
        OnSocks5Handshake(-1);
        return;
      }
      status := ConSvrSuccess;
      OnSocks5Handshake(0);
    }

    // A read completes with data.
    method OnRead(data: Bytes)
      requires Inv(Value()) && Enabled(Value(), Read(data))
      modifies this
      ensures Value() == Next(old(Value()), Read(data)) && Inv(Value())
    {
      NextInv(Value(), Read(data));
      if alive {
        Loop(data);
      }
    }

    // A read or a write fails.
    method OnReadFailed()
      requires Inv(Value()) && Enabled(Value(), ReadFailed)
      modifies this
      ensures Value() == Next(old(Value()), ReadFailed) && Inv(Value())
    {
      NextInv(Value(), ReadFailed);
      if alive {
        reading := false;
        OnSocks5Handshake(-1);
      }
    }

    method OnWriteFailed()
      requires Inv(Value()) && Enabled(Value(), WriteFailed)
      modifies this
      ensures Value() == Next(old(Value()), WriteFailed) && Inv(Value())
    {
      NextInv(Value(), WriteFailed);
      if alive {
        OnSocks5Handshake(-1);
      }
    }

    // The whole handshake: Connect, and then whatever happens.  The owner hears of at most one outcome.
    // When it is success, the greeting was answered with a method the client knows, credentials
    // were sent exactly if the server asked for them, and were accepted, CONNECT was sent last, and the
    // reply to it grants the connection.
    method Handshake(es: seq<Event>)
      requires Value() == Fresh(proxy) && IsProxy(proxy) && Legal(Begun(proxy), es)
      modifies this
      ensures Inv(Value()) && |outcomes| <= 1 && (alive <==> outcomes == [])
      ensures outcomes == [0] ==>
                && 2 <= |wire| <= 3 && wire[0].request == Greeting(proxy) && Welcomed(wire[0].reply)
                && (|wire| == 3 <==> wire[0].reply[1] == 2)
                && (|wire| == 3 ==> wire[1].request == AuthRequest(proxy) && Authenticated(wire[1].reply))
                && wire[|wire| - 1].request == ConnectRequest(proxy) && Connected(wire[|wire| - 1].reply)
      ensures Value() == Exec(Begun(proxy), es)
    {
      hide Handle, Greeting, AuthRequest, ConnectRequest, Inv, Next;
      BeginInv(proxy);
      Connect();
      var i := 0;
      assert es[0..] == es;
      while i < |es|
        invariant i <= |es| && Inv(Value()) && Legal(Value(), es[i..])
        invariant Exec(Value(), es[i..]) == Exec(Begun(proxy), es)
      {
        assert es[i..][0] == es[i] && es[i..][1..] == es[i + 1..];
        match es[i] {
          case Read(data) => OnRead(data);
          case ReadFailed => OnReadFailed();
          case WriteFailed => OnWriteFailed();
        }
        i := i + 1;
      }
      HandshakeSafe(proxy, es);
      OutcomeMeans(Value());
    }
  }

  lemma OutcomeMeans(c: Client)
    requires Inv(c)
    ensures |c.outcomes| <= 1 && (c.alive <==> c.outcomes == [])
  {
  }
}
