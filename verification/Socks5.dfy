/**
 The SOCKS5 client: its messages, what it makes of the server's replies, and that it reports
 success only after a complete handshake (RFC 1928 and RFC 1929).
 */
module Socks5 {
  import opened Basics

  newtype Byte = x: int | 0 <= x < 256
  type Bytes = seq<Byte>

  datatype Status = Init | Hello | NeedAuth | AuthSuccess | AuthReq | ConSvr | ConSvrSuccess

  // What from_string makes of the server name: the address it returns, or an error.
  datatype ServerKind = V4(address: Bytes) | V6(address: Bytes) | HostName

  datatype Proxy = Proxy(server: Bytes, kind: ServerKind, port: nat, username: Bytes, password: Bytes)

  predicate IsProxy(p: Proxy) {
    p.port < 0x1_0000 && (p.kind.V4? ==> |p.kind.address| == 4) && (p.kind.V6? ==> |p.kind.address| == 16)
  }

  // ---------------------------------------------------------------- messages

  // static_cast<uint8_t>(s.length()), and that many bytes of s.
  function Prefixed(s: Bytes): Bytes { [(|s| % 256) as Byte] + s[..|s| % 256] }

  function NetworkOrder(port: nat): Bytes
    requires port < 0x1_0000
  {
    [(port / 256) as Byte, (port % 256) as Byte]
  }

  function Greeting(p: Proxy): Bytes { [5, 1, if p.username == [] || p.password == [] then 0 else 2] }

  function AuthRequest(p: Proxy): Bytes { [1] + (Prefixed(p.username) + Prefixed(p.password)) }

  function Zeros(n: nat): Bytes { seq(n, _ => 0 as Byte) }

  // The address of a literal is not the one from_string returned, which is dropped, but all zeros.
  function Address(p: Proxy): Bytes {
    match p.kind
    case V4(_) => Zeros(4)
    case V6(_) => Zeros(16)
    case HostName => Prefixed(p.server)
  }

  function AddressType(p: Proxy): Byte {
    match p.kind
    case V4(_) => 1
    case V6(_) => 4
    case HostName => 3
  }

  function ConnectRequest(p: Proxy): Bytes
    requires IsProxy(p)
  {
    [5, 1, 0, AddressType(p)] + (Address(p) + NetworkOrder(p.port))
  }

  // ---------------------------------------------------------------- reading messages back

  // A length byte and the bytes it counts, and what is left.
  function Unprefix(s: Bytes): Option<(Bytes, Bytes)> {
    if s == [] || |s| - 1 < s[0] as int then None
    else Some((s[1..1 + s[0] as int], s[1 + s[0] as int..]))
  }

  // Section 2 of RFC 1929, as a server reads it.
  function ReadAuth(s: Bytes): Option<(Bytes, Bytes)> {
    if s == [] || s[0] != 1 then None
    else match Unprefix(s[1..])
      case None => None
      case Some((name, rest)) =>
        match Unprefix(rest)
        case None => None
        case Some((password, left)) => if left == [] then Some((name, password)) else None
  }

  // Where a CONNECT request wants to go.
  datatype Destination = Destination(addressType: Byte, host: Bytes, port: nat)

  function ReadPort(addressType: Byte, host: Bytes, rest: Bytes): Option<Destination> {
    if |rest| != 2 then None
    else Some(Destination(addressType, host, rest[0] as int * 256 + rest[1] as int))
  }

  function ReadFixed(addressType: Byte, s: Bytes, n: nat): Option<Destination> {
    if |s| < n then None else ReadPort(addressType, s[..n], s[n..])
  }

  // Section 4 of RFC 1928, as a server reads it.
  function ReadConnect(s: Bytes): Option<Destination> {
    if |s| < 4 || s[..3] != [5, 1, 0] then None
    else if s[3] == 1 then ReadFixed(1, s[4..], 4)
    else if s[3] == 4 then ReadFixed(4, s[4..], 16)
    else if s[3] != 3 then None
    else match Unprefix(s[4..])
      case None => None
      case Some((name, rest)) => ReadPort(3, name, rest)
  }

  // Where the owner wants to go.
  function Wanted(p: Proxy): Destination {
    Destination(AddressType(p), if p.kind.HostName? then p.server else p.kind.address, p.port)
  }

  lemma UnprefixPrefixed(s: Bytes, rest: Bytes)
    ensures Unprefix(Prefixed(s) + rest) == Some((s[..|s| % 256], rest))
  {
    var t := Prefixed(s) + rest;
    var n := |s| % 256;
    assert t[0] as int == n;
    assert t[1..1 + n] == s[..n] && t[1 + n..] == rest;
  }

  // What a server reads: user name and password, each cut to its length byte.
  lemma CredentialsRead(p: Proxy)
    ensures ReadAuth(AuthRequest(p)) == Some((p.username[..|p.username| % 256], p.password[..|p.password| % 256]))
  {
    var u, w := p.username, p.password;
    assert AuthRequest(p)[1..] == Prefixed(u) + Prefixed(w);
    UnprefixPrefixed(u, Prefixed(w));
    UnprefixPrefixed(w, []);
    assert Prefixed(w) + [] == Prefixed(w);
  }

  // The server reads back the credentials exactly if neither is longer than its length byte can say.
  lemma CredentialsRoundTrip(p: Proxy)
    ensures ReadAuth(AuthRequest(p)) == Some((p.username, p.password)) <==> |p.username| < 256 && |p.password| < 256
  {
    CredentialsRead(p);
    CutWhole(p.username);
    CutWhole(p.password);
  }

  // 256 times the letter a.
  const LONG_NAME: Bytes := seq(256, _ => 97 as Byte)

  // A user name of 256 bytes is read as empty.
  lemma UserNameCut(p: Proxy)
    requires p.username == LONG_NAME && |p.password| < 256
    ensures ReadAuth(AuthRequest(p)) == Some(([], p.password)) && p.username != []
  {
    CredentialsRead(p);
    CutWhole(p.password);
  }

  lemma CutWhole(s: Bytes)
    ensures s[..|s| % 256] == s <==> |s| < 256
  {
    assert |s[..|s| % 256]| == |s| % 256;
    if |s| < 256 {
      assert s[..|s|] == s;
    }
  }

  // What a server reads: the port is always right, a name is cut to its length byte, and a literal
  // address is all zeros.
  lemma ConnectReads(p: Proxy)
    requires IsProxy(p)
    ensures ReadConnect(ConnectRequest(p)) ==
            Some(Destination(AddressType(p),
                             if p.kind.HostName? then p.server[..|p.server| % 256] else Address(p), p.port))
  {
    var s, a, n := ConnectRequest(p), Address(p), NetworkOrder(p.port);
    assert s[..3] == [5, 1, 0] && s[3] == AddressType(p) && s[4..] == a + n;
    if p.kind.HostName? {
      UnprefixPrefixed(p.server, n);
    } else {
      assert (a + n)[..|a|] == a && (a + n)[|a|..] == n;
    }
  }

  // The server is asked for the destination the owner wants if and only if that is a name of less
  // than 256 bytes or the literal of the all-zero address.
  lemma ConnectRoundTrip(p: Proxy)
    requires IsProxy(p)
    ensures ReadConnect(ConnectRequest(p)) == Some(Wanted(p)) <==>
            if p.kind.HostName? then |p.server| < 256 else p.kind.address == Zeros(|p.kind.address|)
  {
    ConnectReads(p);
    CutWhole(p.server);
  }

  // The server is asked to connect to 0.0.0.0 in place of 127.0.0.1.
  lemma LiteralLost(p: Proxy)
    requires IsProxy(p) && p.kind == V4([127, 0, 0, 1])
    ensures ReadConnect(ConnectRequest(p)) == Some(Destination(1, [0, 0, 0, 0], p.port)) != Some(Wanted(p))
  {
    ConnectReads(p);
    assert Zeros(4) == [0, 0, 0, 0];
    assert p.kind.address[0] != Zeros(4)[0];
  }

  // The server is asked to connect to the empty name in place of one of 256 bytes.
  lemma HostNameCut(p: Proxy)
    requires IsProxy(p) && p.kind.HostName? && p.server == LONG_NAME
    ensures ReadConnect(ConnectRequest(p)) == Some(Destination(3, [], p.port)) != Some(Wanted(p))
  {
    ConnectReads(p);
  }

  // ---------------------------------------------------------------- the client

  // A request and everything that was received between it and the next one.
  datatype Exchange = Exchange(request: Bytes, reply: Bytes)

  datatype Client = Client(
    proxy: Proxy,
    status: Status,
    received: Bytes,           // received_data_
    reading: bool,             // a read is outstanding
    wire: seq<Exchange>,
    outcomes: seq<int>,        // OnSocks5Handshake
    alive: bool)               // the owner still holds the client

  function Fresh(p: Proxy): Client { Client(p, Init, [], false, [], [], true) }

  // The owner drops the client when it has its outcome.
  function Report(c: Client, code: int): Client { c.(outcomes := c.outcomes + [code], alive := false) }

  function Send(c: Client, request: Bytes, status: Status): Client {
    c.(wire := c.wire + [Exchange(request, [])], status := status, reading := true)
  }

  function SendConnect(c: Client): Client
    requires IsProxy(c.proxy)
  {
    Send(c.(status := AuthSuccess), ConnectRequest(c.proxy), ConSvr)
  }

  // Connect.
  function Begin(c: Client): Client {
    if c.status != Init then c else Send(c, Greeting(c.proxy), Hello)
  }

  // The bytes of a read join the reply to the last request.
  function Receive(c: Client, data: Bytes): Client
    requires c.wire != []
  {
    var n := |c.wire| - 1;
    c.(reading := false, received := c.received + data,
       wire := c.wire[n := Exchange(c.wire[n].request, c.wire[n].reply + data)])
  }

  function HandleHello(c: Client): Client
    requires IsProxy(c.proxy)
  {
    if |c.received| < 2 then c.(reading := true)
    else if c.received[0] != 5 then Report(c, -1)
    else if c.received[1] == 0 then SendConnect(c.(received := []))
    else if c.received[1] == 2 then Send(c.(received := []), AuthRequest(c.proxy), AuthReq)
    else Report(c, -1)
  }

  function HandleAuth(c: Client): Client
    requires IsProxy(c.proxy)
  {
    if |c.received| < 2 then c.(reading := true)
    else if c.received[0] != 1 || c.received[1] != 0 then Report(c, -1)
    else SendConnect(c.(received := []))
  }

  // received_data_[4] is a char, which is signed, and 0 at the end of the string.
  function HostLength(r: Bytes): int
    requires |r| >= 4
  {
    if |r| == 4 then 0 else if r[4] < 128 then r[4] as int else r[4] as int - 256
  }

  // The reply to CONNECT is there: by its address type.  A negative sum is a huge size_t.
  predicate IsWhole(r: Bytes)
    requires |r| >= 4
  {
    && (r[3] == 1 ==> |r| >= 10)
    && (r[3] == 3 ==> 0 <= 7 + HostLength(r) <= |r|)
    && (r[3] == 4 ==> |r| >= 22)
  }

  // An unfinished reply of four bytes or more is not waited for.
  function HandleConnect(c: Client): Client {
    if |c.received| < 4 then c.(reading := true)
    else if !IsWhole(c.received) then c
    else if c.received[0] != 5 || c.received[1] != 0 then Report(c, -1)
    else Report(c.(status := ConSvrSuccess), 0)
  }

  // A read has completed.
  function Handle(c: Client, data: Bytes): Client
    requires c.wire != [] && IsProxy(c.proxy)
  {
    var d := Receive(c, data);
    match c.status
    case Hello => HandleHello(d)
    case AuthReq => HandleAuth(d)
    case ConSvr => HandleConnect(d)
    case _ => d
  }

  // ---------------------------------------------------------------- safety

  predicate Welcomed(r: Bytes) { |r| >= 2 && r[0] == 5 && (r[1] == 0 || r[1] == 2) }

  predicate Authenticated(r: Bytes) { |r| >= 2 && r[0] == 1 && r[1] == 0 }

  predicate Connected(r: Bytes) { |r| >= 4 && r[0] == 5 && r[1] == 0 && IsWhole(r) }

  // Section 6 of RFC 1928: the reply to CONNECT is there to its last byte, by its address type.
  predicate IsComplete(r: Bytes) {
    && |r| >= 5
    && if r[3] == 1 then |r| >= 10
       else if r[3] == 3 then |r| >= 7 + r[4] as int
       else r[3] == 4 && |r| >= 22
  }

  // The greeting offers one method, by whether the owner has credentials.
  predicate HasCredentials(p: Proxy) { p.username != [] && p.password != [] }

  // How many requests a handshake has: three exactly if the server asked for credentials.
  function Requests(w: seq<Exchange>): nat
    requires w != [] && Welcomed(w[0].reply)
  {
    if w[0].reply[1] == 2 then 3 else 2
  }

  // The greeting was answered with a method the client knows, credentials were sent if and only if
  // the server asked for them, and were accepted, and CONNECT was sent last.
  predicate Asked(c: Client)
    requires IsProxy(c.proxy)
  {
    var w := c.wire;
    && w != [] && w[0].request == Greeting(c.proxy) && Welcomed(w[0].reply) && |w| == Requests(w)
    && w[|w| - 1].request == ConnectRequest(c.proxy)
    && (|w| == 3 ==> w[1].request == AuthRequest(c.proxy) && Authenticated(w[1].reply))
  }

  function LastReply(c: Client): Bytes
    requires c.wire != []
  {
    c.wire[|c.wire| - 1].reply
  }

  predicate Inv(c: Client) {
    && IsProxy(c.proxy) && |c.outcomes| <= 1 && (c.alive <==> c.outcomes == [])
    && (c.status == ConSvrSuccess <==> c.outcomes == [0])
    && match c.status
       case Init => c.wire == [] && c.received == [] && !c.reading
       case Hello =>
         && |c.wire| == 1 && c.wire[0].request == Greeting(c.proxy) && c.wire[0].reply == c.received
         && (c.reading ==> |c.received| < 2)
       case AuthReq =>
         && |c.wire| == 2 && c.wire[0].request == Greeting(c.proxy)
         && Welcomed(c.wire[0].reply) && c.wire[0].reply[1] == 2
         && c.wire[1].request == AuthRequest(c.proxy) && c.wire[1].reply == c.received
         && (c.reading ==> |c.received| < 2)
       case ConSvr =>
         Asked(c) && LastReply(c) == c.received && |c.received| <= 13 && (c.reading ==> |c.received| < 4)
       case ConSvrSuccess => Asked(c) && Connected(LastReply(c)) && |LastReply(c)| <= 13
       case _ => false
  }

  // What can happen to a client: a read completes with up to ten bytes, or fails, or a write fails.
  datatype Event = Read(data: Bytes) | ReadFailed | WriteFailed

  predicate Enabled(c: Client, e: Event) {
    match e
    case Read(data) => c.reading && data != [] && |data| <= 10
    case ReadFailed => c.reading
    case WriteFailed => c.wire != []
  }

  // The handlers hold the client weakly, so a dropped one does nothing.
  function Next(c: Client, e: Event): Client
    requires Inv(c) && Enabled(c, e)
  {
    if !c.alive then c
    else match e
      case Read(data) => Handle(c, data)
      case ReadFailed => Report(c.(reading := false), -1)
      case WriteFailed => Report(c, -1)
  }

  lemma BeginInv(p: Proxy)
    requires IsProxy(p)
    ensures Inv(Fresh(p)) && Inv(Begin(Fresh(p)))
  {
  }

  lemma HelloInv(c: Client, data: Bytes)
    requires Inv(c) && c.status == Hello && c.reading && c.alive
    ensures Inv(Handle(c, data))
  {
    hide Greeting, AuthRequest, ConnectRequest;
    ReportedOnce(c);
    var d := Receive(c, data);
    assert d.wire == [Exchange(Greeting(c.proxy), d.received)];
  }

  lemma AuthInv(c: Client, data: Bytes)
    requires Inv(c) && c.status == AuthReq && c.reading && c.alive
    ensures Inv(Handle(c, data))
  {
    hide Greeting, AuthRequest, ConnectRequest;
    ReportedOnce(c);
    var d := Receive(c, data);
    assert d.wire == [c.wire[0], Exchange(AuthRequest(c.proxy), d.received)];
  }

  lemma ConnectInv(c: Client, data: Bytes)
    requires Inv(c) && c.status == ConSvr && c.reading && c.alive && |data| <= 10
    ensures Inv(Handle(c, data))
  {
    hide Greeting, AuthRequest, ConnectRequest;
    ReportedOnce(c);
    var d := Receive(c, data);
    assert d.wire[|d.wire| - 1] == Exchange(ConnectRequest(c.proxy), d.received);
  }

  lemma ReportedOnce(c: Client)
    requires c.outcomes == []
    ensures Report(c, -1).outcomes == [-1] && [-1] != [0]
  {
    assert [-1][0] != [0][0];
  }

  lemma NextInv(c: Client, e: Event)
    requires Inv(c) && Enabled(c, e)
    ensures Inv(Next(c, e))
  {
    hide Greeting, AuthRequest, ConnectRequest, Handle;
    if c.alive {
      ReportedOnce(c);
    }
    if c.alive && e.Read? {
      match c.status
      case Hello => HelloInv(c, e.data);
      case AuthReq => AuthInv(c, e.data);
      case ConSvr => ConnectInv(c, e.data);
      case _ =>
    }
  }

  // ---------------------------------------------------------------- runs

  predicate Legal(c: Client, es: seq<Event>)
    requires Inv(c)
    decreases |es|
  {
    es == [] || (Enabled(c, es[0]) && (NextInv(c, es[0]); Legal(Next(c, es[0]), es[1..])))
  }

  function Exec(c: Client, es: seq<Event>): (d: Client)
    requires Inv(c) && Legal(c, es)
    ensures Inv(d)
    decreases |es|
  {
    if es == [] then c else NextInv(c, es[0]); Exec(Next(c, es[0]), es[1..])
  }

  lemma {:induction false} ProxyStays(c: Client, es: seq<Event>)
    requires Inv(c) && Legal(c, es)
    ensures Exec(c, es).proxy == c.proxy
    decreases |es|
  {
    hide Greeting, AuthRequest, ConnectRequest;
    if es != [] {
      NextInv(c, es[0]);
      ProxyStays(Next(c, es[0]), es[1..]);
    }
  }

  // A client whose Connect has been called.
  function Begun(p: Proxy): (c: Client)
    requires IsProxy(p)
    ensures Inv(c) && c.proxy == p
  {
    BeginInv(p);
    Begin(Fresh(p))
  }

  // Whatever the server sends and however it arrives, the owner hears of at most one outcome, and of
  // success only after the whole handshake.  The reply to CONNECT has then arrived to its last byte if
  // and only if its address is an IPv4 address or a name of less than 128 bytes; it is never IPv6.
  lemma HandshakeSafe(p: Proxy, es: seq<Event>)
    requires IsProxy(p) && Legal(Begun(p), es)
    ensures var c := Exec(Begun(p), es);
            && |c.outcomes| <= 1
            && (c.outcomes == [0] ==>
                  && c.proxy == p && Asked(c) && Connected(LastReply(c))
                  && var r := LastReply(c);
                     && r[3] != 4 && (r[3] == 3 ==> |r| >= 5)
                     && (IsComplete(r) <==> r[3] == 1 || (r[3] == 3 && r[4] < 128)))
  {
    hide Legal, Exec;
    ProxyStays(Begun(p), es);
  }

  // ---------------------------------------------------------------- the method

  // Everything the server sends in a run.
  function Incoming(es: seq<Event>): Bytes
    decreases |es|
  {
    if es == [] then [] else (if es[0].Read? then es[0].data else []) + Incoming(es[1..])
  }

  // The reply to the greeting is settled.
  predicate PastHello(c: Client) { c.wire != [] && (|c.wire| > 1 || !c.alive) }

  lemma PastHelloNext(c: Client, e: Event)
    requires Inv(c) && Enabled(c, e) && PastHello(c)
    ensures PastHello(Next(c, e)) && Next(c, e).wire[0] == c.wire[0]
  {
    hide Greeting, AuthRequest, ConnectRequest;
  }

  lemma {:induction false} FirstReplyStays(c: Client, es: seq<Event>)
    requires Inv(c) && Legal(c, es) && PastHello(c)
    ensures Exec(c, es).wire != [] && Exec(c, es).wire[0] == c.wire[0]
    decreases |es|
  {
    hide Next, Enabled, Inv;
    if es != [] {
      NextInv(c, es[0]);
      PastHelloNext(c, es[0]);
      FirstReplyStays(Next(c, es[0]), es[1..]);
    }
  }

  predicate AtHello(c: Client) { c.status == Hello && |c.wire| == 1 && c.alive }

  lemma HelloNext(c: Client, e: Event)
    requires Inv(c) && Enabled(c, e) && AtHello(c)
    ensures var d := Next(c, e);
            && (PastHello(d) || AtHello(d))
            && d.wire[0].reply == c.wire[0].reply + if e.Read? then e.data else []
  {
    hide Greeting, AuthRequest, ConnectRequest;
    assert c.wire[0].reply + [] == c.wire[0].reply;
  }

  // The reply to the greeting is what the server sent first.
  lemma {:induction false} FirstReply(c: Client, es: seq<Event>)
    requires Inv(c) && Legal(c, es) && AtHello(c)
    ensures Exec(c, es).wire != [] && Exec(c, es).wire[0].reply <= c.wire[0].reply + Incoming(es)
    decreases |es|
  {
    hide Next, Enabled, Inv;
    if es != [] {
      var e := es[0];
      NextInv(c, e);
      HelloNext(c, e);
      var d, more := Next(c, e), if e.Read? then e.data else [];
      assert c.wire[0].reply + (more + Incoming(es[1..])) == d.wire[0].reply + Incoming(es[1..]);
      if AtHello(d) {
        FirstReply(d, es[1..]);
      } else {
        FirstReplyStays(d, es[1..]);
      }
    }
  }

  // The client goes by the second byte the server sends and nothing else: in a handshake that
  // succeeds it sends credentials if and only if that byte is 2.  So the method it uses is the
  // one it offered if and only if the server's reply names that one.
  lemma ServerChooses(p: Proxy, es: seq<Event>)
    requires IsProxy(p) && Legal(Begun(p), es) && Exec(Begun(p), es).outcomes == [0]
    ensures var c, r := Exec(Begun(p), es), Incoming(es);
            && |r| >= 2 && r[0] == 5 && (r[1] == 0 || r[1] == 2)
            && (|c.wire| == 3 <==> r[1] == 2)
            && (|c.wire| == 3 ==> c.wire[1].request == AuthRequest(p))
  {
    hide Legal, Exec, Incoming;
    HandshakeSafe(p, es);
    FirstReply(Begun(p), es);
    var c, r := Exec(Begun(p), es), Incoming(es);
    assert [] + r == r;
    assert c.wire[0].reply <= r && |c.wire[0].reply| >= 2;
  }

  // ---------------------------------------------------------------- how replies are split

  // It does not matter how the replies to the greeting and to the credentials arrive.
  lemma ShortRepliesSplit(c: Client, a: Bytes, b: Bytes)
    requires IsProxy(c.proxy) && c.wire != [] && (c.status == Hello || c.status == AuthReq)
    requires |c.received| + |a| < 2
    ensures Handle(Handle(c, a), b) == Handle(c, a + b)
  {
    hide Greeting, AuthRequest, ConnectRequest;
    var n := |c.wire| - 1;
    var reply := c.wire[n].reply;
    assert reply + a + b == reply + (a + b) && c.received + a + b == c.received + (a + b);
    assert Receive(Handle(c, a), b) == Receive(c, a + b);
  }

  // The client has sent CONNECT and waits for the reply.
  predicate Waiting(c: Client) { Inv(c) && c.status == ConSvr && c.reading && c.alive }

  predicate OnlyReads(es: seq<Event>) { forall i :: 0 <= i < |es| ==> es[i].Read? }

  // Everything the reads bring.
  function Total(es: seq<Event>): Bytes
    requires OnlyReads(es)
    decreases |es|
  {
    if es == [] then [] else es[0].data + Total(es[1..])
  }

  predicate Refuses(r: Bytes) { |r| >= 4 && IsWhole(r) && (r[0] != 5 || r[1] != 0) }

  lemma ReadConnectReply(c: Client, data: Bytes)
    requires Waiting(c) && Enabled(c, Read(data))
    ensures var d, r := Next(c, Read(data)), c.received + data;
            && Inv(d) && d.received == r && (d.reading <==> |r| < 4)
            && (|r| < 4 ==> Waiting(d))
            && (d.outcomes == [0] <==> Connected(r)) && (d.outcomes == [-1] <==> Refuses(r))
            && (|r| >= 4 ==> |r| <= 13 && (d.outcomes == [] <==> !IsWhole(r)))
  {
    hide Greeting, AuthRequest, ConnectRequest;
    NextInv(c, Read(data));
    ReportedOnce(c);
  }

  // Any number of reads of one to ten bytes: the client decides on what it has when the fourth byte
  // arrives, which is at most thirteen bytes, and never reads again.
  lemma {:induction false} ConnectReplyReads(c: Client, es: seq<Event>)
    requires Waiting(c) && OnlyReads(es) && Legal(c, es)
    ensures var d, r := Exec(c, es), c.received + Total(es);
            && |r| <= 13 && (d.reading <==> |r| < 4)
            && (d.outcomes == [0] <==> Connected(r)) && (d.outcomes == [-1] <==> Refuses(r))
    decreases |es|
  {
    hide Greeting, AuthRequest, ConnectRequest, Handle, Inv, Connected, Refuses;
    WaitingMeans(c);
    if es == [] {
      assert c.received + [] == c.received;
    } else {
      var data := es[0].data;
      ReadConnectReply(c, data);
      var d := Next(c, es[0]);
      assert (c.received + data) + Total(es[1..]) == c.received + Total(es);
      if |c.received + data| < 4 {
        ConnectReplyReads(d, es[1..]);
      } else {
        assert es[1..] == [];
        assert Total(es[1..]) == [] && c.received + Total(es) == c.received + data;
      }
    }
  }

  lemma WaitingMeans(c: Client)
    requires Waiting(c)
    ensures |c.received| < 4 && c.outcomes == [] && !Connected(c.received) && !Refuses(c.received)
  {
  }

  // The length of the reply that starts with r, by section 6 of RFC 1928.
  function ReplyLength(r: Bytes): nat
    requires |r| >= 5
  {
    if r[3] == 1 then 10 else if r[3] == 3 then 7 + r[4] as int else 22
  }

  // A reply that grants the connection, to its last byte and nothing behind it.
  predicate IsGrant(r: Bytes) {
    |r| >= 5 && r[0] == 5 && r[1] == 0 && (r[3] == 1 || r[3] == 3 || r[3] == 4) && |r| == ReplyLength(r)
  }

  // A grant of which the reads have brought the first part, or all, succeeds if and only if they have
  // brought all of it, or it has a name of 249 bytes or more and enough of it is there to
  // deceive the test of its length.
  lemma GrantSucceeds(c: Client, es: seq<Event>, grant: Bytes)
    requires Waiting(c) && c.received == [] && OnlyReads(es) && Legal(c, es)
    requires IsGrant(grant) && Total(es) <= grant
    ensures var n := |Total(es)|;
            Exec(c, es).outcomes == [0] <==>
            Total(es) == grant || (grant[3] == 3 && grant[4] >= 249 && n >= 5 && n >= grant[4] as int - 249)
  {
    hide Legal, Exec, Waiting, Total;
    ConnectReplyReads(c, es);
    var r := Total(es);
    assert [] + r == r;
    assert forall i :: 0 <= i < |r| ==> r[i] == grant[i];
    if |r| == |grant| {
      assert r == grant;
    }
  }

  // So a grant with an IPv6 address, or with a name of 7 to 248 bytes, never succeeds, however it
  // arrives.
  lemma LongGrantsFail(c: Client, es: seq<Event>, grant: Bytes)
    requires Waiting(c) && c.received == [] && OnlyReads(es) && Legal(c, es)
    requires IsGrant(grant) && Total(es) <= grant
    requires grant[3] == 4 || (grant[3] == 3 && 7 <= grant[4] <= 248)
    ensures Exec(c, es).outcomes != [0]
  {
    hide Legal, Exec, Waiting, Total;
    assert [] + Total(es) == Total(es);
    ConnectReplyReads(c, es);
    GrantSucceeds(c, es, grant);
  }

  // ---------------------------------------------------------------- witnesses

  lemma ReadOne(c: Client, data: Bytes)
    requires Inv(c) && Enabled(c, Read(data))
    ensures Legal(c, [Read(data)]) && Exec(c, [Read(data)]) == Next(c, Read(data))
  {
    hide Enabled, Next;
    NextInv(c, Read(data));
    assert [Read(data)][1..] == [];
    var d := Next(c, Read(data));
    assert Legal(d, []) && Exec(d, []) == d;
  }

  // A server that needs no authentication has answered the greeting.
  function NoAuth(p: Proxy): (c: Client)
    requires IsProxy(p)
    ensures Waiting(c) && c.received == [] && c.proxy == p
  {
    ReadOne(Begun(p), [5, 0]);
    Exec(Begun(p), [Read([5, 0])])
  }

  // The usual grant, with an IPv4 address, cut behind its fourth byte: the rest is never read.
  lemma SplitGrantLost(p: Proxy)
    requires IsProxy(p)
    ensures var c := NoAuth(p); var es := [Read([5, 0, 0, 1])]; var all := [Read([5, 0, 0, 1, 0, 0, 0, 0, 0, 0])];
            && Legal(c, all) && Exec(c, all).outcomes == [0]
            && Legal(c, es) && Exec(c, es).outcomes == [] && !Exec(c, es).reading
  {
    var c := NoAuth(p);
    ReadOne(c, [5, 0, 0, 1]);
    ReadConnectReply(c, [5, 0, 0, 1]);
    ReadOne(c, [5, 0, 0, 1, 0, 0, 0, 0, 0, 0]);
    ReadConnectReply(c, [5, 0, 0, 1, 0, 0, 0, 0, 0, 0]);
  }

  // Success with 5 of 261 bytes, and with an address type there is not.
  lemma IncompleteSuccess(p: Proxy)
    requires IsProxy(p)
    ensures var c := NoAuth(p); var a, b: Bytes := [5, 0, 0, 3, 254], [5, 0, 0, 9];
            && Legal(c, [Read(a)]) && Exec(c, [Read(a)]).outcomes == [0] && !IsComplete(a)
            && Legal(c, [Read(b)]) && Exec(c, [Read(b)]).outcomes == [0] && !IsComplete(b)
  {
    var c := NoAuth(p);
    ReadOne(c, [5, 0, 0, 3, 254]);
    ReadConnectReply(c, [5, 0, 0, 3, 254]);
    ReadOne(c, [5, 0, 0, 9]);
    ReadConnectReply(c, [5, 0, 0, 9]);
  }

  // A grant with the IPv4 address 0.0.0.0.
  const GRANT: Bytes := [5, 0, 0, 1, 0, 0, 0, 0, 0, 0]

  // A server that chooses the method it was not offered, and grants the connection.
  function Unoffered(p: Proxy): seq<Event> {
    if HasCredentials(p) then [Read([5, 0])] + [Read(GRANT)]
    else [Read([5, 2])] + ([Read([1, 0])] + [Read(GRANT)])
  }

  lemma ReadThen(c: Client, data: Bytes, es: seq<Event>)
    requires Inv(c) && Enabled(c, Read(data)) && Inv(Next(c, Read(data))) && Legal(Next(c, Read(data)), es)
    ensures Legal(c, [Read(data)] + es) && Exec(c, [Read(data)] + es) == Exec(Next(c, Read(data)), es)
  {
    hide Enabled, Next;
    assert ([Read(data)] + es)[1..] == es;
  }

  lemma Granted(c: Client)
    requires Waiting(c) && c.received == []
    ensures Legal(c, [Read(GRANT)])
    ensures var d := Exec(c, [Read(GRANT)]);
            && d.outcomes == [0] && |d.wire| == |c.wire|
            && forall i :: 0 <= i < |c.wire| - 1 ==> d.wire[i] == c.wire[i]
  {
    hide Greeting, AuthRequest, ConnectRequest;
    ReadOne(c, GRANT);
    ReadConnectReply(c, GRANT);
    assert [] + GRANT == GRANT;
  }

  lemma HelloTaken(p: Proxy, reply: Bytes)
    requires IsProxy(p) && (reply == [5, 0] || reply == [5, 2])
    ensures Enabled(Begun(p), Read(reply)) && Inv(Next(Begun(p), Read(reply)))
    ensures var c := Next(Begun(p), Read(reply));
            && c.received == [] && c.proxy == p && |c.wire| == 2 && c.wire[0].reply == reply
            && (reply[1] == 0 ==> Waiting(c))
            && (reply[1] == 2 ==>
                  c.status == AuthReq && c.reading && c.alive && c.wire[1] == Exchange(AuthRequest(p), []))
  {
    hide AuthRequest, ConnectRequest;
    NextInv(Begun(p), Read(reply));
    assert [] + reply == reply;
  }

  lemma AuthTaken(c: Client)
    requires Inv(c) && c.status == AuthReq && c.reading && c.alive && c.received == []
    ensures Enabled(c, Read([1, 0])) && Waiting(Next(c, Read([1, 0])))
    ensures var d := Next(c, Read([1, 0]));
            d.received == [] && |d.wire| == 3 && d.wire[0] == c.wire[0] && d.wire[1].request == c.wire[1].request
  {
    hide Greeting, AuthRequest, ConnectRequest;
    NextInv(c, Read([1, 0]));
    assert c.received + [1, 0] == [1, 0];
  }

  // No proxy is safe from that: whatever it offers, such a handshake succeeds.  Without a user name or
  // a password the client has sent them all the same, one of them empty.
  lemma UnofferedMethod(p: Proxy)
    requires IsProxy(p)
    ensures var es := Unoffered(p);
            && Legal(Begun(p), es)
            && var c := Exec(Begun(p), es);
               && c.outcomes == [0] && |c.wire| >= 2 && |c.wire[0].reply| == 2
               && c.wire[0].reply[1] != Greeting(p)[2]
               && (!HasCredentials(p) ==> |c.wire| == 3 && c.wire[1].request == AuthRequest(p))
  {
    hide Legal, Exec, Next, Enabled, Inv, AuthRequest;
    var b := Begun(p);
    if HasCredentials(p) {
      HelloTaken(p, [5, 0]);
      Granted(Next(b, Read([5, 0])));
      ReadThen(b, [5, 0], [Read(GRANT)]);
    } else {
      HelloTaken(p, [5, 2]);
      var c := Next(b, Read([5, 2]));
      AuthTaken(c);
      Granted(Next(c, Read([1, 0])));
      ReadThen(c, [1, 0], [Read(GRANT)]);
      ReadThen(b, [5, 2], [Read([1, 0])] + [Read(GRANT)]);
    }
  }
}
