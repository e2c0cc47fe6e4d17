/** The client's push channel (frontend/src/app/services/websocket.service.ts)
    as a state machine. The rxjs socket is abstract: the environment delivers a
    message, an error or a completion for the current socket; each `setTimeout`
    is a pending timer, given by its due time in milliseconds. */
module WebsocketChannel {
  import opened Wrappers

  /** A lifecycle event as the client decodes it; every field is JSON text. */
  datatype JobEvent = JobEvent(
    kind: string,
    jobId: string,
    queue: string,
    timestamp: string,
    payload: Option<string>,
    error: Option<string>)

  const ReconnectDelayMs: int := 3000

  /** A socket is Live while its subscription may still deliver; it is Ended
      once its error or completion has been delivered, which is when the model
      takes the socket to be `closed`. */
  datatype SocketState = Live | Ended

  class WebsocketService {
    /** One entry per `connect`, oldest first; the last one is `socket$`. */
    var sockets: seq<SocketState>
    /** Due times of the pending reconnect timers. */
    var timers: seq<int>
    /** Everything `messages$` has emitted, in order. */
    var delivered: seq<JobEvent>
    /** What `sendMessage` forwarded, with the index of the socket it went to. */
    var sent: seq<(nat, string)>
    /** The sockets on which `close` called `complete()`. */
    var completeCalls: seq<nat>

    /** Earlier sockets are finished, and there is exactly one thing alive: the
        current socket or one pending reconnect. */
    ghost predicate Valid()
      reads this
    {
      && |sockets| >= 1
      && (forall k :: 0 <= k < |sockets| - 1 ==> sockets[k] == Ended)
      && |timers| == (if sockets[|sockets| - 1] == Live then 0 else 1)
    }

    function Current(): nat
      reads this
      requires |sockets| >= 1
    {
      |sockets| - 1
    }

    /** `socket$ && !socket$.closed`. */
    predicate IsOpen()
      reads this
    {
      |sockets| >= 1 && sockets[|sockets| - 1] == Live
    }

    /** Construction connects once. */
    constructor ()
      ensures Valid()
      ensures sockets == [Live] && timers == [] && delivered == [] && sent == [] && completeCalls == []
    {
      sockets := [Live];
      timers := [];
      delivered := [];
      sent := [];
      completeCalls := [];
    }

    /** `connect`: a new socket becomes `socket$` and is subscribed. */
    method Connect()
      modifies this
      ensures sockets == old(sockets) + [Live]
      ensures timers == old(timers) && delivered == old(delivered) && sent == old(sent)
      ensures completeCalls == old(completeCalls)
    {
      sockets := sockets + [Live];
    }

    /** `reconnect`: one `connect` scheduled after a fixed 3000 ms. */
    method Reconnect(now: int)
      modifies this
      ensures timers == old(timers) + [now + ReconnectDelayMs]
      ensures sockets == old(sockets) && delivered == old(delivered) && sent == old(sent)
      ensures completeCalls == old(completeCalls)
    {
      timers := timers + [now + ReconnectDelayMs];
    }

    /** The current socket delivers a message: it is passed on unchanged. */
    method OnMessage(message: JobEvent)
      requires Valid() && IsOpen()
      modifies this
      ensures Valid()
      ensures delivered == old(delivered) + [message]
      ensures sockets == old(sockets) && timers == old(timers) && sent == old(sent)
      ensures completeCalls == old(completeCalls)
    {
      delivered := delivered + [message];
    }

    /** The current socket fails: exactly one reconnect is scheduled. */
    method OnError(now: int)
      requires Valid() && IsOpen()
      modifies this
      ensures Valid()
      ensures sockets == old(sockets)[|old(sockets)| - 1 := Ended]
      ensures timers == old(timers) + [now + ReconnectDelayMs] && |timers| == 1
      ensures delivered == old(delivered) && sent == old(sent) && completeCalls == old(completeCalls)
    {
      sockets := sockets[|sockets| - 1 := Ended];
      Reconnect(now);
    }

    /** The current socket completes: the same single reconnect as on error. */
    method OnComplete(now: int)
      requires Valid() && IsOpen()
      modifies this
      ensures Valid()
      ensures sockets == old(sockets)[|old(sockets)| - 1 := Ended]
      ensures timers == old(timers) + [now + ReconnectDelayMs] && |timers| == 1
      ensures delivered == old(delivered) && sent == old(sent) && completeCalls == old(completeCalls)
    {
      sockets := sockets[|sockets| - 1 := Ended];
      Reconnect(now);
    }

    /** A due timer runs its `connect`. */
    method FireTimer(i: nat, now: int)
      requires Valid() && i < |timers| && timers[i] <= now
      modifies this
      ensures Valid()
      ensures sockets == old(sockets) + [Live] && timers == []
      ensures delivered == old(delivered) && sent == old(sent) && completeCalls == old(completeCalls)
    {
      timers := timers[..i] + timers[i + 1..];
      Connect();
    }

    /** `sendMessage`: forwarded only while the current socket is open. */
    method SendMessage(message: string) returns (forwarded: bool)
      requires Valid()
      modifies this
      ensures Valid()
      ensures forwarded == old(IsOpen())
      ensures sent == if forwarded then old(sent) + [(Current(), message)] else old(sent)
      ensures sockets == old(sockets) && timers == old(timers) && delivered == old(delivered)
      ensures completeCalls == old(completeCalls)
    {
      forwarded := sockets[|sockets| - 1] == Live;
      if forwarded {
        sent := sent + [(|sockets| - 1, message)];
      }
    }

    /** `close`: only `complete()` on the current socket. No flag is set and
        no pending timer is cancelled. */
    method Close()
      requires Valid()
      modifies this
      ensures Valid()
      ensures completeCalls == old(completeCalls) + [Current()]
      ensures sockets == old(sockets) && timers == old(timers)
      ensures delivered == old(delivered) && sent == old(sent)
    {
      completeCalls := completeCalls + [|sockets| - 1];
    }
  }

  /** Three failures right after connecting give three reconnects, due 3000 ms
      apart. A `close` during the third delay does not cancel the pending
      reconnect. A `close` on a live socket is followed by a fourth reconnect
      once its completion arrives. Returns the number of connects made and the
      due time of every reconnect, in order. */
  method CloseDoesNotStopReconnect() returns (connects: nat, dues: seq<int>)
    ensures connects == 5
    ensures dues == [3000, 6000, 9000, 9000 + ReconnectDelayMs]
  {
    var ws := new WebsocketService();
    dues := [];
    ws.OnError(0);
    dues := dues + [ws.timers[0]];
    ws.FireTimer(0, 3000);
    ws.OnError(3000);
    dues := dues + [ws.timers[0]];
    ws.FireTimer(0, 6000);
    ws.OnError(6000);
    dues := dues + [ws.timers[0]];
    ws.Close();
    assert ws.timers == [9000];
    ws.FireTimer(0, 9000);
    assert |ws.sockets| == 4;
    ws.Close();
    ws.OnComplete(9000);
    dues := dues + [ws.timers[0]];
    ws.FireTimer(0, ws.timers[0]);
    connects := |ws.sockets|;
  }
}
