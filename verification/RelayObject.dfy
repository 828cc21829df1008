// The Durable Object class of packages/relay/src/cloudflare-adapter.ts: its buffer map,
// changed by push and splice, and the sockets the runtime keeps for it, seen by its loops.

module RelayObject {
  import opened Wrappers
  import R = Relay
  import I = RelayInvariant
  import L = RelayLaws
  import opened Relay

  class RelayDurableObject {
    var sockets: seq<Socket>
    var pendingFrames: map<string, seq<Payload>>
    ghost var arrivals: seq<Arrival>
    ghost var served: seq<Arrival>

    ghost function Model(): State
      reads this
    {
      State(sockets, pendingFrames, arrivals, served)
    }

    constructor ()
      ensures Model() == R.Init()
    {
      sockets, pendingFrames, arrivals, served := [], map[], [], [];
    }

    method BufferFrame(c: string, data: Payload)
      modifies this`pendingFrames
      ensures pendingFrames == R.BufferFrame(old(pendingFrames), c, data)
    {
      var existing := if c in pendingFrames then pendingFrames[c] else [];
      existing := existing + [data];
      if |existing| > 200 {
        existing := existing[|existing| - 200..];
      }
      pendingFrames := pendingFrames[c := existing];
    }

    // flushFrames to the socket accepted last; the send of frame number failsAt throws.
    method FlushFrames(c: string, failsAt: Option<nat>)
      requires |sockets| > 0 && sockets[|sockets| - 1].outbox == [] && !sockets[|sockets| - 1].closing
      modifies this`sockets, this`pendingFrames
      ensures pendingFrames == R.FlushPending(old(pendingFrames), c, failsAt)
      ensures var frames := Buffered(old(pendingFrames), c);
              var n := |old(sockets)| - 1;
              sockets == old(sockets)[n := old(sockets)[n].(outbox := AsFrames(frames[..FlushCount(|frames|, failsAt)]))]
    {
      var n := |sockets| - 1;
      var ws := sockets[n];
      if c !in pendingFrames || |pendingFrames[c]| == 0 {
        assert AsFrames([]) == [] && ws.(outbox := []) == ws;
        return;
      }
      var frames := pendingFrames[c];
      pendingFrames := pendingFrames - {c};
      for k := 0 to |frames|
        invariant sockets == old(sockets)[n := ws.(outbox := AsFrames(frames[..k]))]
        invariant failsAt.None? || k <= failsAt.value
        invariant pendingFrames == old(pendingFrames) - {c}
      {
        if failsAt == Some(k) {
          BufferFrame(c, frames[k]);
          return;
        }
        assert AsFrames(frames[..k + 1]) == AsFrames(frames[..k]) + [Frame(frames[k])];
        sockets := sockets[n := sockets[n].(outbox := sockets[n].outbox + [Frame(frames[k])])];
      }
      assert frames[..|frames|] == frames;
    }

    method HasSocket(tag: Tag) returns (found: bool)
      ensures found <==> Has(sockets, tag)
    {
      for i := 0 to |sockets|
        invariant forall k :: 0 <= k < i ==> !Tagged(sockets[k], tag)
      {
        if Tagged(sockets[i], tag) {
          return true;
        }
      }
      return false;
    }

    // listConnectedConnectionIds
    method ListConnectedConnectionIds() returns (ids: set<string>)
      ensures ids == ConnectedIds(sockets)
    {
      ids := {};
      for i := 0 to |sockets|
        invariant ids == ConnectedIds(sockets[..i])
      {
        var ws := sockets[i];
        if ws.listed && ws.role == Client {
          ids := ids + {ws.connectionId};
        }
        assert sockets[..i + 1] == sockets[..i] + [ws];
        I.ConnectedSnoc(sockets[..i], ws);
      }
      assert sockets[..|sockets|] == sockets;
    }

    method SendToAll(tag: Tag, x: Out, broken: set<nat>)
      modifies this`sockets
      ensures sockets == SendAll(old(sockets), tag, x, broken)
    {
      for i := 0 to |sockets|
        invariant |sockets| == |old(sockets)|
        invariant forall k :: 0 <= k < i ==> sockets[k] == SendAll(old(sockets), tag, x, broken)[k]
        invariant forall k :: i <= k < |sockets| ==> sockets[k] == old(sockets)[k]
      {
        var ws := sockets[i];
        if Tagged(ws, tag) && !ws.closing && i !in broken {
          sockets := sockets[i := ws.(outbox := ws.outbox + [x])];
        }
      }
    }

    method CloseTagged(tag: Tag)
      modifies this`sockets
      ensures sockets == CloseAll(old(sockets), tag)
    {
      for i := 0 to |sockets|
        invariant |sockets| == |old(sockets)|
        invariant forall k :: 0 <= k < i ==> sockets[k] == CloseAll(old(sockets), tag)[k]
        invariant forall k :: i <= k < |sockets| ==> sockets[k] == old(sockets)[k]
      {
        if Tagged(sockets[i], tag) {
          sockets := sockets[i := sockets[i].(closing := true)];
        }
      }
    }

    method NotifyAllControls(x: Out, broken: set<nat>)
      modifies this`sockets
      ensures sockets == NotifyControls(old(sockets), x, broken)
    {
      for i := 0 to |sockets|
        invariant |sockets| == |old(sockets)|
        invariant forall k :: 0 <= k < i ==> sockets[k] == NotifyControls(old(sockets), x, broken)[k]
        invariant forall k :: i <= k < |sockets| ==> sockets[k] == old(sockets)[k]
      {
        var ws := sockets[i];
        if Tagged(ws, Controls) {
          if !ws.closing && i !in broken {
            sockets := sockets[i := ws.(outbox := ws.outbox + [x])];
          } else {
            sockets := sockets[i := ws.(closing := true)];
          }
        }
      }
    }

    // fetchV2: c is empty only for the daemon's control socket, as a client without an id is given one.
    method FetchV2(isServer: bool, c: string, broken: set<nat>, failsAt: Option<nat>)
      requires isServer || c != ""
      modifies this
      ensures Model() ==
              if !isServer then R.Next(old(Model()), AcceptClient(c, broken))
              else if c == "" then R.Next(old(Model()), AcceptControl(|old(sockets)| in broken))
              else R.Next(old(Model()), AcceptData(c, failsAt))
    {
      if isServer {
        CloseTagged(if c == "" then Controls else DataOf(c));
      }
      var role := if !isServer then Client else if c == "" then Control else ServerData;
      var n := |sockets|;
      ghost var before := sockets;
      sockets := sockets + [Socket(role, c, true, false, [])];
      if !isServer {
        NotifyAllControls(Connected(c), broken);
      } else if c == "" {
        var ids := ListConnectedConnectionIds();
        ControlAddsNoId(old(sockets), before, sockets[n]);
        if n !in broken {
          sockets := sockets[n := sockets[n].(outbox := [Sync(ids)])];
        }
      } else {
        FlushFrames(c, failsAt);
      }
    }

    method WebSocketMessage(i: nat, data: Payload, broken: set<nat>)
      requires i < |sockets| && sockets[i].listed
      modifies this
      ensures Model() == R.Next(old(Model()), Message(i, data, broken))
      ensures |sockets| == |old(sockets)|
      ensures var ws := old(sockets[i]);
              ws.role == ServerData ==> pendingFrames == old(pendingFrames) && forall k :: 0 <= k < |sockets| ==>
                var client := old(sockets)[k];
                sockets[k] == if L.ListedClient(client, ws.connectionId) && !client.closing && k !in broken
                              then client.(outbox := client.outbox + [Frame(data)]) else client
      ensures var ws := old(sockets[i]);
              ws.role == Client ==> forall k :: 0 <= k < |sockets| ==>
                var daemon := old(sockets)[k];
                sockets[k] == if L.ListedData(daemon, ws.connectionId) && !daemon.closing && k !in broken
                              then daemon.(outbox := daemon.outbox + [Frame(data)]) else daemon
    {
      if sockets[i].role == ServerData {
        L.DaemonFrameReachesClients(Model(), i, data, broken);
      } else if sockets[i].role == Client {
        L.ClientFrameReachesDaemon(Model(), i, data, broken);
      }
      DispatchMessage(i, data, broken);
    }

    // The branches of webSocketMessage.
    method DispatchMessage(i: nat, data: Payload, broken: set<nat>)
      requires i < |sockets| && sockets[i].listed
      modifies this
      ensures Model() == R.Next(old(Model()), Message(i, data, broken))
    {
      var ws := sockets[i];
      var c := ws.connectionId;
      if ws.role == Control {
        return;
      }
      if ws.role == Client {
        arrivals := arrivals + [Arrival(c, data)];
        var attached := HasSocket(DataOf(c));
        if !attached {
          BufferFrame(c, data);
          return;
        }
        SendToAll(DataOf(c), Frame(data), broken);
        return;
      }
      served := served + [Arrival(c, data)];
      SendToAll(ClientsOf(c), Frame(data), broken);
    }

    method WebSocketClose(i: nat, broken: set<nat>)
      requires i < |sockets| && sockets[i].listed
      modifies this
      ensures Model() == R.Next(old(Model()), CloseEvent(i, broken))
    {
      var ws := sockets[i];
      var c := ws.connectionId;
      sockets := sockets[i := ws.(listed := false)];
      if ws.role == Client {
        var remaining := HasSocket(ClientsOf(c));
        if remaining {
          return;
        }
        pendingFrames := pendingFrames - {c};
        CloseTagged(DataOf(c));
        NotifyAllControls(Disconnected(c), broken);
      } else if ws.role == ServerData {
        CloseTagged(ClientsOf(c));
      }
    }
  }

  lemma ControlAddsNoId(s: seq<Socket>, closed: seq<Socket>, ws: Socket)
    requires closed == CloseAll(s, Controls) && ws.role == Control
    ensures ConnectedIds(closed + [ws]) == ConnectedIds(s)
  {
    I.CloseAged(s, Controls);
    I.SameListingIds(s, closed);
    I.ConnectedSnoc(closed, ws);
  }
}
