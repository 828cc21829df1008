// What holds in every run of the relay: one server socket per identity, daemons with
// exact views, and frames kept apart by connection, in order, with an exact buffer.

module RelayInvariant {
  import opened Wrappers
  import opened Relay

  // ---- One live server socket, exact views ----

  lemma SendAged(s: seq<Socket>, tag: Tag, x: Out, broken: set<nat>)
    ensures Aged(s, SendAll(s, tag, x, broken)) && SameListing(s, SendAll(s, tag, x, broken))
  {
  }

  lemma CloseAged(s: seq<Socket>, tag: Tag)
    ensures Aged(s, CloseAll(s, tag)) && SameListing(s, CloseAll(s, tag))
  {
  }

  lemma NotifyAged(s: seq<Socket>, x: Out, broken: set<nat>)
    ensures Aged(s, NotifyControls(s, x, broken)) && SameListing(s, NotifyControls(s, x, broken))
  {
  }

  predicate SameListing(s: seq<Socket>, t: seq<Socket>)
  {
    && |t| == |s|
    && forall i :: 0 <= i < |s| ==>
         t[i].role == s[i].role && t[i].connectionId == s[i].connectionId && t[i].listed == s[i].listed
  }

  lemma SameListingTags(s: seq<Socket>, t: seq<Socket>, tag: Tag)
    requires SameListing(s, t)
    ensures Has(t, tag) <==> Has(s, tag)
  {
    if Has(s, tag) {
      var i :| 0 <= i < |s| && Tagged(s[i], tag);
      assert Tagged(t[i], tag);
    }
    if Has(t, tag) {
      var i :| 0 <= i < |t| && Tagged(t[i], tag);
      assert Tagged(s[i], tag);
    }
  }

  lemma SameListingIds(s: seq<Socket>, t: seq<Socket>)
    requires SameListing(s, t)
    ensures ConnectedIds(t) == ConnectedIds(s)
  {
  }

  // No control socket got anything new, and the connections are the same.
  ghost predicate ControlsSame(s: seq<Socket>, t: seq<Socket>)
  {
    && |s| <= |t|
    && (forall i :: 0 <= i < |t| && t[i].role == Control && t[i].Live() ==>
          i < |s| && s[i].role == Control && s[i].Live() && t[i].outbox == s[i].outbox)
    && ConnectedIds(t) == ConnectedIds(s)
  }

  lemma ViewsSame(s: seq<Socket>, t: seq<Socket>, all: bool)
    requires Views(s, all) && ControlsSame(s, t)
    ensures Views(t, all)
  {
    hide Fold, ConnectedIds;
    forall i | 0 <= i < |t| && t[i].role == Control && t[i].Live()
      ensures Told(t[i]) == Told(s[i])
    {
    }
  }

  lemma ToldSnoc(ws: Socket, x: Out)
    ensures Told(ws.(outbox := ws.outbox + [x])) <==> Told(ws) || x.Sync?
  {
    var more := ws.outbox + [x];
    assert more[|ws.outbox|] == x;
    if Told(ws) {
      var k :| 0 <= k < |ws.outbox| && ws.outbox[k].Sync?;
      assert more[k].Sync?;
    }
  }

  // Notifying brings every live control socket from one set of connections to the next.
  lemma ViewsNotified(s: seq<Socket>, t: seq<Socket>, x: Out, broken: set<nat>, before: set<string>, all: bool)
    requires forall i :: 0 <= i < |s| && s[i].role == Control && s[i].Live() ==>
               x.Sync? || (Fold(s[i].outbox) <= before && (all || Told(s[i]) ==> Fold(s[i].outbox) == before))
    requires t == NotifyControls(s, x, broken)
    requires !x.Frame? && FoldOne(before, x) == ConnectedIds(s)
    ensures Views(t, all)
  {
    hide Told, Fold, ConnectedIds;
    NotifyAged(s, x, broken);
    SameListingIds(s, t);
    forall i | 0 <= i < |t| && t[i].role == Control && t[i].Live()
      ensures Fold(t[i].outbox) <= ConnectedIds(t)
      ensures all || Told(t[i]) ==> Fold(t[i].outbox) == ConnectedIds(t)
    {
      FoldSnoc(s[i].outbox, x);
      ToldSnoc(s[i], x);
      assert t[i] == s[i].(outbox := s[i].outbox + [x]);
    }
  }

  // With all set: the view of every live control socket is exact.
  ghost predicate ControlView(s: State, all: bool)
  {
    OneLive(s.sockets) && ControlsUnnamed(s.sockets) && Views(s.sockets, all)
  }

  lemma AcceptClientControl(s: State, c: string, broken: set<nat>, all: bool)
    requires ControlView(s, all)
    ensures ControlView(OnAcceptClient(s, c, broken), all)
  {
    hide Told, Fold;
    var ws := Socket(Client, c, true, false, []);
    var accepted := s.sockets + [ws];
    assert forall i :: 0 <= i < |s.sockets| ==> accepted[i] == s.sockets[i];
    assert ConnectedIds(accepted) == ConnectedIds(s.sockets) + {c} by {
      assert accepted[|s.sockets|] == ws;
      ConnectedSnoc(s.sockets, ws);
    }
    ViewsNotified(accepted, NotifyControls(accepted, Connected(c), broken), Connected(c), broken, ConnectedIds(s.sockets), all);
    NotifyAged(accepted, Connected(c), broken);
    AgedOneLive(accepted, NotifyControls(accepted, Connected(c), broken));
  }

  lemma ConnectedSnoc(s: seq<Socket>, ws: Socket)
    ensures ConnectedIds(s + [ws]) == ConnectedIds(s) + if ws.listed && ws.role == Client then {ws.connectionId} else {}
  {
    var t := s + [ws];
    forall c | c in ConnectedIds(s)
      ensures c in ConnectedIds(t)
    {
      var i :| 0 <= i < |s| && s[i].listed && s[i].role == Client && s[i].connectionId == c;
      assert t[i] == s[i];
    }
    assert t[|s|] == ws;
  }

  lemma OnlyLastView(t: seq<Socket>, ws: Socket, all: bool)
    requires t != [] && t[|t| - 1] == ws && ws.role == Control && ws.Live()
    requires forall i :: 0 <= i < |t| - 1 && t[i].role == Control ==> !t[i].Live()
    ensures Views(t, all) <==>
            Fold(ws.outbox) <= ConnectedIds(t) && (all || Told(ws) ==> Fold(ws.outbox) == ConnectedIds(t))
  {
    hide Told, Fold, ConnectedIds;
  }

  // What a daemon holds that was sent its first list, or was not.
  lemma FirstView(ws: Socket, ids: set<string>)
    ensures Fold(ws.(outbox := []).outbox) == {} && !Told(ws.(outbox := []))
    ensures Fold(ws.(outbox := [Sync(ids)]).outbox) == ids && Told(ws.(outbox := [Sync(ids)]))
  {
    var x, empty := Sync(ids), ws.(outbox := []);
    FoldSnoc([], x);
    ToldSnoc(empty, x);
    assert [] + [x] == [x];
  }

  // The new socket is the only one up; without the list it has been told nothing.
  lemma AcceptControlControl(s: State, syncFails: bool, all: bool)
    requires ControlView(s, all)
    ensures ControlView(OnAcceptControl(s, syncFails), all) <==> !(all && syncFails && ConnectedIds(s.sockets) != {})
  {
    hide Told, Fold, ConnectedIds, Views;
    var t := OnAcceptControl(s, syncFails).sockets;
    var closed := CloseAll(s.sockets, Controls);
    var ws := t[|s.sockets|];
    AcceptOneLive(s.sockets, Controls, ws);
    CloseAged(s.sockets, Controls);
    SameListingIds(s.sockets, closed);
    ConnectedSnoc(closed, ws);
    var ids := ConnectedIds(s.sockets);
    assert ConnectedIds(t) == ids + {} == ids;
    FirstView(ws, ids);
    assert forall i :: 0 <= i < |closed| ==> t[i] == closed[i];
    OnlyLastView(t, ws, all);
  }

  lemma AcceptDataControl(s: State, c: string, failsAt: Option<nat>, all: bool)
    requires ControlView(s, all)
    ensures ControlView(OnAcceptData(s, c, failsAt), all)
  {
    hide AsFrames, FlushPending;
    var t := OnAcceptData(s, c, failsAt).sockets;
    var closed := CloseAll(s.sockets, DataOf(c));
    var ws := t[|s.sockets|];
    AcceptOneLive(s.sockets, DataOf(c), ws);
    CloseAged(s.sockets, DataOf(c));
    SameListingIds(s.sockets, closed);
    ConnectedSnoc(closed, ws);
    assert forall i :: 0 <= i < |closed| ==> t[i] == closed[i];
    ViewsSame(s.sockets, t, all);
  }

  lemma MessageControl(s: State, ws: Socket, data: Payload, broken: set<nat>, all: bool)
    requires ControlView(s, all)
    ensures ControlView(OnMessage(s, ws, data, broken), all)
  {
    var t := OnMessage(s, ws, data, broken).sockets;
    var tag := if ws.role == Client then DataOf(ws.connectionId) else ClientsOf(ws.connectionId);
    if t != s.sockets {
      SendAged(s.sockets, tag, Frame(data), broken);
      SameListingIds(s.sockets, t);
      AgedOneLive(s.sockets, t);
      ViewsSame(s.sockets, t, all);
    }
  }

  lemma DelistAged(s: seq<Socket>, i: nat)
    requires i < |s|
    ensures Aged(s, Delist(s, i))
  {
  }

  lemma DelistIds(s: seq<Socket>, i: nat)
    requires i < |s| && s[i].listed
    ensures ConnectedIds(Delist(s, i)) ==
            if s[i].role == Client && !Has(Delist(s, i), ClientsOf(s[i].connectionId))
            then ConnectedIds(s) - {s[i].connectionId} else ConnectedIds(s)
  {
    var t := Delist(s, i);
    var c := s[i].connectionId;
    forall d | d in ConnectedIds(s) && (s[i].role != Client || d != c)
      ensures d in ConnectedIds(t)
    {
      var k :| 0 <= k < |s| && s[k].listed && s[k].role == Client && s[k].connectionId == d;
      assert t[k] == s[k];
    }
    if s[i].role == Client {
      if Has(t, ClientsOf(c)) {
        var k :| 0 <= k < |t| && Tagged(t[k], ClientsOf(c));
        assert t[k].connectionId == c;
      } else {
        forall k | 0 <= k < |t| && t[k].listed && t[k].role == Client
          ensures t[k].connectionId != c
        {
          assert !Tagged(t[k], ClientsOf(c));
        }
      }
    }
  }

  lemma CloseControl(s: State, i: nat, broken: set<nat>, all: bool)
    requires ControlView(s, all) && i < |s.sockets| && s.sockets[i].listed
    ensures ControlView(OnClose(s, i, broken), all)
  {
    var ws := s.sockets[i];
    var c := ws.connectionId;
    var rest := Delist(s.sockets, i);
    DelistAged(s.sockets, i);
    DelistIds(s.sockets, i);
    AgedOneLive(s.sockets, rest);
    if ws.role == Client && !Has(rest, ClientsOf(c)) {
      LastClientControl(s, i, broken, all);
    } else {
      ViewsSame(s.sockets, rest, all);
      if ws.role == ServerData {
        var t := CloseAll(rest, ClientsOf(c));
        CloseAged(rest, ClientsOf(c));
        AgedOneLive(rest, t);
        SameListingIds(rest, t);
        ViewsSame(rest, t, all);
      }
    }
  }

  lemma LastClientControl(s: State, i: nat, broken: set<nat>, all: bool)
    requires ControlView(s, all) && i < |s.sockets| && s.sockets[i].listed && s.sockets[i].role == Client
    requires !Has(Delist(s.sockets, i), ClientsOf(s.sockets[i].connectionId))
    ensures ControlView(OnClose(s, i, broken), all)
  {
    var c := s.sockets[i].connectionId;
    var rest := Delist(s.sockets, i);
    var closed := CloseAll(rest, DataOf(c));
    var t := NotifyControls(closed, Disconnected(c), broken);
    DelistAged(s.sockets, i);
    DelistIds(s.sockets, i);
    AgedOneLive(s.sockets, rest);
    CloseAged(rest, DataOf(c));
    AgedOneLive(rest, closed);
    SameListingIds(rest, closed);
    NotifyAged(closed, Disconnected(c), broken);
    AgedOneLive(closed, t);
    forall k | 0 <= k < |closed| && closed[k].role == Control && closed[k].Live()
      ensures Fold(closed[k].outbox) <= ConnectedIds(s.sockets)
      ensures all || Told(closed[k]) ==> Fold(closed[k].outbox) == ConnectedIds(s.sockets)
    {
      assert closed[k] == s.sockets[k];
    }
    ViewsNotified(closed, t, Disconnected(c), broken, ConnectedIds(s.sockets), all);
  }

  lemma NudgeControl(s: State, c: string, broken: set<nat>, all: bool)
    requires ControlView(s, all)
    ensures ControlView(Next(s, NudgeSync(c, broken)), all) && ControlView(Next(s, ResetControls(c)), all)
  {
    hide Told, Fold, Has, ConnectedIds;
    var x := Sync(ConnectedIds(s.sockets));
    var t := NotifyControls(s.sockets, x, broken);
    NotifyAged(s.sockets, x, broken);
    AgedOneLive(s.sockets, t);
    ViewsNotified(s.sockets, t, x, broken, {}, all);
    var u := CloseAll(s.sockets, Controls);
    CloseAged(s.sockets, Controls);
    AgedOneLive(s.sockets, u);
    SameListingIds(s.sockets, u);
    ViewsSame(s.sockets, u, all);
  }

  // A control socket is accepted, its list is not sent, and there are clients it does not get to know of.
  predicate Misses(s: State, e: Event)
  {
    e.AcceptControl? && e.syncFails && ConnectedIds(s.sockets) != {}
  }

  lemma NextView(s: State, e: Event, all: bool)
    requires ControlView(s, all)
    ensures ControlView(Next(s, e), all) <==> !(all && Misses(s, e))
  {
    hide ControlView, OnAcceptClient, OnAcceptControl, OnAcceptData, OnMessage, OnClose;
    match e
    case AcceptClient(c, broken) => AcceptClientControl(s, c, broken, all);
    case AcceptControl(syncFails) => AcceptControlControl(s, syncFails, all);
    case AcceptData(c, failsAt) => AcceptDataControl(s, c, failsAt, all);
    case Message(i, data, broken) =>
      if i < |s.sockets| {
        MessageControl(s, s.sockets[i], data, broken, all);
      }
    case CloseEvent(i, broken) =>
      if i < |s.sockets| && s.sockets[i].listed {
        CloseControl(s, i, broken, all);
      }
    case NudgeSync(c, broken) => NudgeControl(s, c, broken, all);
    case ResetControls(c) => NudgeControl(s, c, {}, all);
  }

  // What holds in every run: of the server sockets with one identity at most one is up; a daemon whose control
  // socket is up holds only ids with a listed client, and all of them once it has been sent a list.
  ghost predicate ControlInv(s: State)
  {
    ControlView(s, false)
  }

  lemma NextControl(s: State, e: Event)
    requires ControlInv(s)
    ensures ControlInv(Next(s, e))
  {
    NextView(s, e, false);
  }

  // In every run, whatever sends fail.
  lemma {:induction false} RunControl(events: seq<Event>)
    ensures ControlInv(Run(events))
  {
    hide Next, ControlInv;
    if events == [] {
      InitViews();
    } else {
      RunControl(events[..|events| - 1]);
      NextControl(Run(events[..|events| - 1]), events[|events| - 1]);
    }
  }

  lemma InitViews()
    ensures ControlInv(Init()) && ControlView(Init(), true)
  {
  }

  // Every control socket that is up holds exactly the ids with a listed client, until and only until a control
  // socket misses its first list while there are clients.
  lemma ViewsExactLostIff(s: State, e: Event)
    requires ControlView(s, true)
    ensures ControlView(Next(s, e), true) <==> !Misses(s, e)
  {
    NextView(s, e, true);
  }

  lemma {:induction false} DaemonViewExact(events: seq<Event>)
    requires forall k :: 0 <= k < |events| ==> !Misses(Run(events[..k]), events[k])
    ensures ControlView(Run(events), true)
  {
    hide Next, ControlView, Misses;
    if events == [] {
      InitViews();
    } else {
      var n := |events| - 1;
      forall k | 0 <= k < n
        ensures !Misses(Run(events[..n][..k]), events[..n][k])
      {
        assert events[..n][..k] == events[..k];
      }
      DaemonViewExact(events[..n]);
      ViewsExactLostIff(Run(events[..n]), events[n]);
    }
  }

  // A nudge repairs every view, from any state: whoever cannot be sent the list is closed.
  lemma NudgeRepairs(s: State, c: string, broken: set<nat>)
    requires ControlInv(s) && Has(s.sockets, ClientsOf(c)) && !Has(s.sockets, DataOf(c))
    ensures ControlView(Next(s, NudgeSync(c, broken)), true)
  {
    hide Told, Fold, Has, ConnectedIds, Views;
    var x := Sync(ConnectedIds(s.sockets));
    var t := NotifyControls(s.sockets, x, broken);
    NotifyAged(s.sockets, x, broken);
    AgedOneLive(s.sockets, t);
    ViewsNotified(s.sockets, t, x, broken, {}, true);
  }

  // A control socket whose list is not sent, with a client there: the daemon does not know of it until the nudge.
  lemma MissedClientReachable()
    ensures var s := Run([AcceptClient("c", {}), AcceptControl(true)]);
            && !ControlView(s, true)
            && ControlView(Next(s, NudgeSync("c", {})), true)
  {
    var first, both := [AcceptClient("c", {})], [AcceptClient("c", {}), AcceptControl(true)];
    var client := Socket(Client, "c", true, false, []);
    var control := Socket(Control, "", true, false, []);
    OneClient(first, client);
    var s := Run(first);
    assert both[..1] == first && Run(both) == OnAcceptControl(s, true);
    assert CloseAll([client], Controls) == [client] && [client] + [control] == [client, control];
    assert Run(both).sockets == [client, control];
    hide Run;
    RunControl(both);
    assert "c" in ConnectedIds(s.sockets) by {
      assert s.sockets[0] == client;
    }
    AcceptControlControl(s, true, true);
    assert Tagged([client, control][0], ClientsOf("c"));
    NudgeRepairs(Run(both), "c", {});
  }

  lemma OneClient(first: seq<Event>, client: Socket)
    requires first == [AcceptClient("c", {})] && client == Socket(Client, "c", true, false, [])
    ensures Run(first).sockets == [client] && ControlView(Run(first), true)
  {
    assert first[..0] == [] && Run([]) == Init();
    var s := Run(first);
    assert s == OnAcceptClient(Init(), "c", {});
    assert [] + [client] == [client] && NotifyControls([client], Connected("c"), {}) == [client];
    InitViews();
    hide Run;
    AcceptClientControl(Init(), "c", {}, true);
  }
}
