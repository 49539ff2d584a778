/**
 NetConnectionImpl: the stages of a connect and the queue of buffers to send.  All handlers run on
 the pump's thread; each operation they start completes at most once.
 */
module NetConnection {
  import opened Basics

  datatype NetType = Tcp | TcpTls | Websocket | WebsocketTls | Http | Https

  datatype Stage = Dns | Transport | Socks | Tls | Upgrade

  type Buffer = seq<int>

  predicate UsesTls(t: NetType) { t == WebsocketTls || t == TcpTls || t == Https }

  predicate UsesWebsocket(t: NetType) { t == WebsocketTls || t == Websocket }

  // The stages a connection needs, in order.
  function Required(t: NetType, proxied: bool): seq<Stage> {
    [Dns, Transport] + (if proxied then [Socks] else []) + (if UsesTls(t) then [Tls] else [])
    + (if UsesWebsocket(t) then [Upgrade] else [])
  }

  // What can happen to a connection.
  datatype Event =
    | ConnectCalled                          // Connect, on the pump's thread
    | StageEnded(stage: Stage, code: int)    // the outstanding operation of the connect completes
    | SendCalled(buffer: Buffer)             // a posted Send
    | WriteEnded(code: int)
    | ReadEnded(code: int)
    | DelegateCleared                        // DisConnect, under the mutex
    | CleanUpPosted                          // the rest of DisConnect, on the pump's thread

  function Sends(es: seq<Event>): seq<Buffer>
    decreases |es|
  {
    if es == [] then []
    else
      var e := es[|es| - 1];
      Sends(es[..|es| - 1]) + if e.SendCalled? then [e.buffer] else []
  }

  class NetConnectionImpl {
    const netType: NetType
    const proxied: bool

    var attached: bool                 // delegate_ is set
    var cleanedUp: bool                // already_clean_up
    var queue: seq<Buffer>             // send_buffers

    var started: bool                  // Connect has been called
    var stage: Option<Stage>           // the operation of the connect that is outstanding
    var writing: bool                  // DoSendData is outstanding
    var receiving: bool                // DoRecvData is outstanding

    var passed: seq<Stage>             // the stages that have succeeded, in order
    var statuses: seq<int>             // the codes passed to HandleConnectStatus
    var reported: seq<int>             // OnConnect
    var closings: nat                  // OnDisconnect

    var posted: seq<Buffer>            // the buffers that reached the queue, in order
    var handed: seq<Buffer>            // the buffers handed to DoSendData, in order
    var written: seq<Buffer>           // the buffers whose write succeeded, in order

    // The queue holds what has been posted and not been written; a write that is outstanding is for
    // its front; and as long as the connection has not been cleaned up one is outstanding exactly if
    // the queue is not empty.
    ghost predicate QueueValid()
      reads this
    {
      && posted == written + queue
      && (writing ==> queue != [] && handed == written + [queue[0]])
      && (!writing ==> handed == written || (queue != [] && handed == written + [queue[0]]))
      && (!cleanedUp ==> (writing <==> queue != []))
    }

    // The stages are passed in order, one at a time, and a status is given only when none is left to
    // wait for: code 0 when all have been passed.
    ghost predicate StageValid()
      reads this
    {
      var all := Required(netType, proxied);
      && passed <= all && |statuses| <= 1 && reported <= statuses
      && (!started ==> passed == [] && stage == None && statuses == [])
      && (stage.Some? ==> statuses == [] && started && passed + [stage.value] <= all)
      && (statuses == [0] ==> passed == all)
    }

    ghost predicate Valid()
      reads this
    {
      QueueValid() && StageValid()
    }

    constructor (t: NetType, proxied: bool)
      ensures Valid() && attached && !started && posted == [] && reported == []
    {
      netType := t;
      this.proxied := proxied;
      attached, cleanedUp, queue := true, false, [];
      started, stage, writing, receiving := false, None, false, false;
      passed, statuses, reported, closings := [], [], [], 0;
      posted, handed, written := [], [], [];
    }

    // ---------------------------------------------------------------- clean-up and callbacks

    // Closing the transport drops the proxy client; the other operations may still complete.
    method HandleCleanUp()
      requires StageValid()
      modifies this`cleanedUp, this`stage
      ensures StageValid() && cleanedUp
      ensures stage == if old(cleanedUp) || old(stage) != Some(Socks) then old(stage) else None
    {
      if cleanedUp {
        return;
      }
      cleanedUp := true;
      if stage == Some(Socks) {
        stage := None;
      }
    }

    // Under the mutex: the delegate hears of it if it is still attached.
    method HandleConnectStatus(code: int)
      requires Valid() && started && stage == None && statuses == []
      requires code == 0 ==> passed == Required(netType, proxied)
      modifies this`statuses, this`reported
      ensures Valid() && statuses == [code]
      ensures reported == old(reported) + (if attached then [code] else [])
    {
      statuses := [code];
      if attached {
        reported := reported + [code];
      }
    }

    method NotifyDisconnect()
      modifies this`closings
      ensures closings == old(closings) + (if attached then 1 else 0)
    {
      if attached {
        closings := closings + 1;
      }
    }

    // DisConnect clears the delegate under the mutex; its clean-up is posted.
    method Detach()
      requires Valid()
      modifies this`attached
      ensures Valid() && !attached
    {
      attached := false;
    }

    // ---------------------------------------------------------------- the stages

    method Connect()
      requires Valid() && !started
      modifies this`started, this`stage
      ensures Valid() && stage == Some(Dns)
    {
      started := true;
      stage := Some(Dns);
    }

    // A stage has succeeded; the next one is to be started, if there is any.
    ghost predicate Passing(s: Stage)
      reads this
    {
      Valid() && stage == Some(s)
    }

    method Pass(s: Stage)
      requires Passing(s)
      modifies this`passed, this`stage
      ensures Valid() && stage == None && passed == old(passed) + [s] && statuses == []
    {
      stage := None;
      passed := passed + [s];
    }

    method Fail(s: Stage, code: int)
      requires Passing(s) && code != 0
      modifies this`stage, this`statuses, this`reported, this`cleanedUp
      ensures Valid() && stage == None && cleanedUp && statuses == [code]
      ensures reported == if attached then [code] else []
    {
      stage := None;
      HandleConnectStatus(code);
      HandleCleanUp();
    }

    method OnDnsResolvered(code: int)
      requires Passing(Dns)
      modifies this`stage, this`statuses, this`reported, this`cleanedUp, this`passed
      ensures Valid()
      ensures if code == 0 then stage == Some(Transport) else stage == None && cleanedUp && statuses == [code]
      ensures passed == old(passed) + (if code == 0 then [Dns] else []) && (code == 0 ==> cleanedUp == old(cleanedUp))
      ensures reported == if attached then statuses else []
    {
      if code != 0 {
        Fail(Dns, code);
      } else {
        Pass(Dns);
        FirstStages(netType, proxied, passed);
        stage := Some(Transport);
      }
    }

    method NotifyConnectComplete(code: int)
      requires Passing(Transport)
      modifies this`stage, this`statuses, this`reported, this`cleanedUp, this`passed, this`receiving
      ensures Valid()
      ensures code != 0 ==> stage == None && cleanedUp && statuses == [code]
      ensures code == 0 && proxied ==> stage == Some(Socks)
      ensures passed == old(passed) + (if code == 0 then [Transport] else [])
      ensures code == 0 ==> cleanedUp == old(cleanedUp)
      ensures reported == if attached then statuses else []
      ensures receiving == (old(receiving) || statuses == [0])
    {
      if code != 0 {
        Fail(Transport, code);
      } else {
        Pass(Transport);
        SecondStages(netType, proxied, passed);
        if proxied {
          stage := Some(Socks);
        } else {
          DoOtherHandshake();
        }
      }
    }

    method OnSocks5Handshake(code: int)
      requires Passing(Socks)
      modifies this`stage, this`statuses, this`reported, this`cleanedUp, this`passed, this`receiving
      ensures Valid()
      ensures code != 0 ==> stage == None && cleanedUp && statuses == [code]
      ensures passed == old(passed) + (if code == 0 then [Socks] else []) && (code == 0 ==> cleanedUp == old(cleanedUp))
      ensures reported == if attached then statuses else []
      ensures receiving == (old(receiving) || statuses == [0])
    {
      if code != 0 {
        Fail(Socks, code);
      } else {
        Pass(Socks);
        SocksStage(netType, proxied, passed);
        DoOtherHandshake();
      }
    }

    // What is left once the transport, and the proxy if there is one, are connected.
    method DoOtherHandshake()
      requires Valid() && started && stage == None && statuses == []
      requires passed == [Dns, Transport] + if proxied then [Socks] else []
      modifies this`stage, this`statuses, this`reported, this`receiving
      ensures Valid()
      ensures UsesTls(netType) ==> stage == Some(Tls)
      ensures netType == Websocket ==> stage == Some(Upgrade)
      ensures netType == Tcp || netType == Http ==> statuses == [0]
      ensures UsesTls(netType) || netType == Websocket ==> statuses == []
      ensures reported == (if attached then statuses else []) && receiving == (old(receiving) || statuses == [0])
    {
      match netType {
        case WebsocketTls | TcpTls | Https => stage := Some(Tls);
        case Websocket => stage := Some(Upgrade);
        case _ =>
          HandleConnectStatus(0);
          receiving := true;
      }
    }

    method NotifyTlsHandshakeComplete(code: int)
      requires Passing(Tls)
      modifies this`stage, this`statuses, this`reported, this`cleanedUp, this`passed, this`receiving
      ensures Valid()
      ensures code != 0 ==> stage == None && cleanedUp && statuses == [code]
      ensures code == 0 && netType == WebsocketTls ==> stage == Some(Upgrade)
      ensures code == 0 && netType != WebsocketTls ==> statuses == [0]
      ensures passed == old(passed) + (if code == 0 then [Tls] else []) && (code == 0 ==> cleanedUp == old(cleanedUp))
      ensures reported == if attached then statuses else []
      ensures receiving == (old(receiving) || statuses == [0])
    {
      if code != 0 {
        Fail(Tls, code);
      } else {
        Pass(Tls);
        TlsStage(netType, proxied, passed);
        if netType == WebsocketTls {
          stage := Some(Upgrade);
        } else {
          HandleConnectStatus(0);
          receiving := true;
        }
      }
    }

    method NotifyWebsocketHandshakeComplete(code: int)
      requires Passing(Upgrade)
      modifies this`stage, this`statuses, this`reported, this`cleanedUp, this`passed, this`receiving
      ensures Valid() && statuses == [code] && (code != 0 ==> cleanedUp)
      ensures passed == old(passed) + (if code == 0 then [Upgrade] else [])
      ensures code == 0 ==> cleanedUp == old(cleanedUp)
      ensures reported == if attached then statuses else []
      ensures receiving == (old(receiving) || statuses == [0])
    {
      if code != 0 {
        Fail(Upgrade, code);
      } else {
        Pass(Upgrade);
        UpgradeStage(netType, proxied, passed);
        HandleConnectStatus(0);
        receiving := true;
      }
    }

    // ---------------------------------------------------------------- sending

    method DoSendData(buffer: Buffer)
      requires !writing
      modifies this`writing, this`handed
      ensures writing && handed == old(handed) + [buffer]
    {
      writing := true;
      handed := handed + [buffer];
    }

    // A posted Send reaches the queue; a write is started only if none is under way.
    method DoSendFromQueue(buffer: Buffer)
      requires Valid()
      modifies this`queue, this`posted, this`writing, this`handed
      ensures Valid() && posted == old(posted) + [buffer] && queue == old(queue) + [buffer]
      ensures handed == old(handed) + if old(queue) == [] && !cleanedUp then [buffer] else []
    {
      var writeInProgress := queue != [];
      queue := queue + [buffer];
      posted := posted + [buffer];
      if !writeInProgress && !cleanedUp {
        DoSendData(queue[0]);
      }
    }

    // The outstanding write has ended.  On success its buffer leaves the queue, which is not empty,
    // and the next one is handed over.
    method NotifySendComplete(code: int)
      requires Valid() && writing
      modifies this`queue, this`written, this`writing, this`handed, this`cleanedUp, this`stage, this`closings
      ensures Valid() && posted == old(posted)
      ensures code != 0 ==> cleanedUp && !writing && queue == old(queue) && handed == old(handed)
      ensures code == 0 ==>
                && old(queue) != [] && queue == old(queue)[1..] && written == old(written) + [old(queue)[0]]
                && handed == old(handed) + if queue != [] && !cleanedUp then [queue[0]] else []
    {
      writing := false;
      if code != 0 {
        NotifyDisconnect();
        HandleCleanUp();
      } else {
        assert queue == [queue[0]] + queue[1..];
        written := written + [queue[0]];
        queue := queue[1..];
        if queue != [] && !cleanedUp {
          DoSendData(queue[0]);
        }
      }
    }

    // The outstanding read has ended; after an error there is no other.
    method NotifyRecvData(code: int)
      requires Valid() && receiving
      modifies this`receiving, this`cleanedUp, this`stage, this`closings
      ensures Valid() && (receiving <==> code == 0) && (code != 0 ==> cleanedUp)
    {
      receiving := false;
      if code != 0 {
        NotifyDisconnect();
        HandleCleanUp();
      } else {
        receiving := true;
      }
    }

    // An event can happen: an operation ends only if it is outstanding, and Connect is called once.
    predicate Possible(e: Event)
      reads this
    {
      match e
      case ConnectCalled => !started
      case StageEnded(s, _) => stage == Some(s)
      case WriteEnded(_) => writing
      case ReadEnded(_) => receiving
      case _ => true
    }

    method Handle(e: Event)
      requires Valid() && Possible(e)
      modifies this
      ensures Valid() && posted == old(posted) + if e.SendCalled? then [e.buffer] else []
    {
      match e {
        case ConnectCalled => Connect();
        case StageEnded(Dns, code) => OnDnsResolvered(code);
        case StageEnded(Transport, code) => NotifyConnectComplete(code);
        case StageEnded(Socks, code) => OnSocks5Handshake(code);
        case StageEnded(Tls, code) => NotifyTlsHandshakeComplete(code);
        case StageEnded(Upgrade, code) => NotifyWebsocketHandshakeComplete(code);
        case SendCalled(buffer) => DoSendFromQueue(buffer);
        case WriteEnded(code) => NotifySendComplete(code);
        case ReadEnded(code) => NotifyRecvData(code);
        case DelegateCleared => Detach();
        case CleanUpPosted => HandleCleanUp();
      }
    }

    /** Any run: whatever happens, in any order, of what can happen.  The buffers handed to the transport
        are the first of those sent, in order; OnConnect is delivered at most once, and with code 0 only if
        every stage the connection needs has succeeded, in order. */
    method Run(es: seq<Event>)
      requires Valid() && posted == []
      modifies this
      ensures Valid() && posted == Sends(es) && handed <= Sends(es)
      ensures |reported| <= 1 && (0 in reported ==> passed == Required(netType, proxied))
    {
      var i := 0;
      while i < |es|
        invariant i <= |es| && Valid() && posted == Sends(es[..i])
      {
        assert es[..i + 1][..i] == es[..i];
        if Possible(es[i]) {
          Handle(es[i]);
        }
        i := i + 1;
      }
      assert es[..i] == es;
      HandedInOrder();
      ConnectOutcome();
    }

    // The buffers handed to the transport are the first of those posted, in the order of posting.
    lemma HandedInOrder()
      requires Valid()
      ensures handed <= posted
    {
      if handed != written {
        assert posted == written + queue && queue == [queue[0]] + queue[1..];
      }
    }

    // OnConnect is delivered at most once, and with code 0 only if every stage the connection needs has
    // succeeded, in order.
    lemma ConnectOutcome()
      requires Valid()
      ensures |reported| <= 1 && (0 in reported ==> passed == Required(netType, proxied))
    {
    }
  }

  // ---------------------------------------------------------------- the stages in order

  lemma FirstStages(t: NetType, proxied: bool, passed: seq<Stage>)
    requires passed <= Required(t, proxied) && |passed| > 0 && passed[|passed| - 1] == Dns
    ensures passed + [Transport] <= Required(t, proxied)
  {
  }

  lemma SecondStages(t: NetType, proxied: bool, passed: seq<Stage>)
    requires passed <= Required(t, proxied) && |passed| > 0 && passed[|passed| - 1] == Transport
    ensures passed == [Dns, Transport] && (proxied ==> passed + [Socks] <= Required(t, proxied))
  {
  }

  lemma SocksStage(t: NetType, proxied: bool, passed: seq<Stage>)
    requires passed <= Required(t, proxied) && |passed| > 0 && passed[|passed| - 1] == Socks
    ensures proxied && passed == [Dns, Transport, Socks]
  {
  }

  lemma TlsStage(t: NetType, proxied: bool, passed: seq<Stage>)
    requires passed <= Required(t, proxied) && |passed| > 0 && passed[|passed| - 1] == Tls
    ensures t == WebsocketTls ==> passed + [Upgrade] <= Required(t, proxied)
    ensures t != WebsocketTls ==> passed == Required(t, proxied)
  {
  }

  lemma UpgradeStage(t: NetType, proxied: bool, passed: seq<Stage>)
    requires passed <= Required(t, proxied) && |passed| > 0 && passed[|passed| - 1] == Upgrade
    ensures passed == Required(t, proxied)
  {
  }
}
