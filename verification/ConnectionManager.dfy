/** WebSocket connections, their subscriptions, and the messages that change them. */
module ConnectionManager {
  import opened Prelude

  type Socket = nat

  // ---------------------------------------------------------------- channel keys

  function ExecKey(user: string, id: string): string {
    user + "|graph_exec#" + id
  }

  function GraphKey(user: string, id: string): string {
    user + "|graph#" + id + "|executions"
  }

  // ---------------------------------------------------------------- the three indexes

  datatype Manager = Manager(
    active: set<Socket>, subscriptions: map<string, set<Socket>>, users: map<string, set<Socket>>)

  function Members(index: map<string, set<Socket>>, key: string): set<Socket> {
    if key in index then index[key] else {}
  }

  function Connect(m: Manager, ws: Socket, user: string): Manager {
    m.(active := m.active + {ws}, users := m.users[user := Members(m.users, user) + {ws}])
  }

  /** Empty sets stay behind among the subscriptions, but not among the users. */
  function Disconnect(m: Manager, ws: Socket, user: string): Manager {
    var rest := Members(m.users, user) - {ws};
    Manager(
      m.active - {ws},
      map c <- m.subscriptions :: m.subscriptions[c] - {ws},
      if user !in m.users then m.users else if rest == {} then m.users - {user} else m.users[user := rest])
  }

  function Subscribe(m: Manager, key: string, ws: Socket): Manager {
    m.(subscriptions := m.subscriptions[key := Members(m.subscriptions, key) + {ws}])
  }

  function Unsubscribe(m: Manager, key: string, ws: Socket): Manager {
    var rest := Members(m.subscriptions, key) - {ws};
    if key !in m.subscriptions then m
    else m.(subscriptions := if rest == {} then m.subscriptions - {key} else m.subscriptions[key := rest])
  }

  /** No index of users keeps an empty set. */
  predicate Tidy(m: Manager) {
    forall u <- m.users :: m.users[u] != {}
  }

  lemma AfterConnect(m: Manager, ws: Socket, user: string, u: string, x: Socket)
    ensures x in Members(Connect(m, ws, user).users, u) <==> x in Members(m.users, u) || (x == ws && u == user)
    ensures Tidy(m) ==> Tidy(Connect(m, ws, user))
  {
  }

  lemma AfterDisconnect(m: Manager, ws: Socket, user: string, u: string, x: Socket)
    ensures x in Members(Disconnect(m, ws, user).users, u) <==> x in Members(m.users, u) && !(x == ws && u == user)
    ensures x in Members(Disconnect(m, ws, user).subscriptions, u) <==> x in Members(m.subscriptions, u) && x != ws
    ensures Tidy(m) ==> Tidy(Disconnect(m, ws, user))
  {
  }

  lemma AfterSubscribe(m: Manager, key: string, ws: Socket, c: string, x: Socket)
    ensures x in Members(Subscribe(m, key, ws).subscriptions, c)
            <==> x in Members(m.subscriptions, c) || (x == ws && c == key)
  {
  }

  lemma AfterUnsubscribe(m: Manager, key: string, ws: Socket, c: string, x: Socket)
    ensures x in Members(Unsubscribe(m, key, ws).subscriptions, c)
            <==> x in Members(m.subscriptions, c) && !(x == ws && c == key)
  {
  }

  // ---------------------------------------------------------------- messages

  datatype Method =
    | SubscribeGraphExec | SubscribeGraphExecs | UnsubscribeMethod | GraphExecutionEvent | NodeExecutionEvent
    | Notification | ErrorMethod | Heartbeat

  /** The data of a message: nothing (also an empty object, list or text), or what an object has to offer. */
  datatype Data = Missing | Fields(graphExecId: Option<string>, graphId: Option<string>)

  datatype Frame = Malformed | Message(kind: Method, data: Data)

  datatype Reply =
    | Joined(kind: Method, channel: string) | Left(dropped: Option<string>) | Pong
    | DataMissing | BadFormat | BadData | NotProcessed

  /** The channel a frame asks to join. */
  function Joins(user: string, f: Frame): Option<string> {
    if f.Malformed? || f.data.Missing? then None
    else if f.kind.SubscribeGraphExec? && f.data.graphExecId.Some? then Some(ExecKey(user, f.data.graphExecId.value))
    else if f.kind.SubscribeGraphExecs? && f.data.graphId.Some? then Some(GraphKey(user, f.data.graphId.value))
    else None
  }

  /** The channel a frame asks to leave; only single executions can be left. */
  function Leaves(user: string, f: Frame): Option<string> {
    if f.Message? && f.kind.UnsubscribeMethod? && f.data.Fields? && f.data.graphExecId.Some?
    then Some(ExecKey(user, f.data.graphExecId.value))
    else None
  }

  function Handle(m: Manager, ws: Socket, user: string, f: Frame): Manager {
    if Joins(user, f).Some? then Subscribe(m, Joins(user, f).value, ws)
    else if Leaves(user, f).Some? then Unsubscribe(m, Leaves(user, f).value, ws)
    else m
  }

  /** The answer to a frame; an error message from the client gets none. */
  function Answer(m: Manager, user: string, f: Frame): Option<Reply> {
    if f.Malformed? then Some(BadFormat)
    else if f.kind.Heartbeat? then Some(Pong)
    else if f.kind.ErrorMethod? then None
    else if !(f.kind.SubscribeGraphExec? || f.kind.SubscribeGraphExecs? || f.kind.UnsubscribeMethod?) then
      Some(NotProcessed)
    else if f.data.Missing? then Some(DataMissing)
    else if Joins(user, f).Some? then Some(Joined(f.kind, Joins(user, f).value))
    else if Leaves(user, f).Some? then
      Some(Left(if Leaves(user, f).value in m.subscriptions then Leaves(user, f) else None))
    else Some(BadData)
  }

  // ---------------------------------------------------------------- sending

  datatype Update =
    | GraphUpdate(user: string, id: string, graphId: string)
    | NodeUpdate(user: string, graphExecId: string)

  function Channels(u: Update): set<string> {
    match u
    case GraphUpdate(user, id, graphId) => {ExecKey(user, id), GraphKey(user, graphId)}
    case NodeUpdate(user, graphExecId) => {ExecKey(user, graphExecId)}
  }

  /** Who is sent an update, and on which channel. */
  function Recipients(m: Manager, u: Update): set<(string, Socket)> {
    Pairs(m.subscriptions, Channels(u))
  }

  /** The channel-socket pairs of some channels. */
  function Pairs(subscriptions: map<string, set<Socket>>, channels: set<string>): set<(string, Socket)> {
    set c <- channels, ws <- Members(subscriptions, c) :: (c, ws)
  }

  function PairsOf(channel: string, members: set<Socket>): set<(string, Socket)> {
    set ws <- members :: (channel, ws)
  }

  lemma OneMemberMore(channel: string, all: set<Socket>, left: set<Socket>, ws: Socket)
    requires left <= all && ws in left
    ensures (channel, ws) !in PairsOf(channel, all - left)
    ensures PairsOf(channel, all - (left - {ws})) == PairsOf(channel, all - left) + {(channel, ws)}
  {
    assert all - (left - {ws}) == all - left + {ws};
  }

  lemma OneChannelMore(subscriptions: map<string, set<Socket>>, all: set<string>, left: set<string>, channel: string)
    requires left <= all && channel in left && channel in subscriptions
    ensures Pairs(subscriptions, all - (left - {channel}))
         == Pairs(subscriptions, all - left) + PairsOf(channel, subscriptions[channel])
    ensures Pairs(subscriptions, all - left) !! PairsOf(channel, subscriptions[channel])
  {
    assert all - (left - {channel}) == all - left + {channel};
  }

  lemma NothingSent(subscriptions: map<string, set<Socket>>, channels: set<string>)
    ensures Pairs(subscriptions, channels - channels * subscriptions.Keys) == {}
  {
  }

  lemma AllSent(m: Manager, u: Update)
    ensures Pairs(m.subscriptions, Channels(u) - {}) == Recipients(m, u)
  {
    assert Channels(u) - {} == Channels(u);
  }

  lemma UserDropped(before: map<string, set<Socket>>, after: map<string, set<Socket>>, ws: Socket, user: string)
    requires after == if user !in before then before
                      else if before[user] - {ws} == {} then before[user := before[user] - {ws}] - {user}
                      else before[user := before[user] - {ws}]
    ensures after == Disconnect(Manager({}, map[], before), ws, user).users
  {
    assert before[user := Members(before, user) - {ws}] - {user} == before - {user};
  }

  // ---------------------------------------------------------------- the object

  class Connections {
    var active: set<Socket>
    var subscriptions: map<string, set<Socket>>
    var users: map<string, set<Socket>>

    ghost function Now(): Manager
      reads this
    {
      Manager(active, subscriptions, users)
    }

    constructor ()
      ensures Now() == Manager({}, map[], map[])
    {
      active, subscriptions, users := {}, map[], map[];
    }

    method ConnectSocket(ws: Socket, user: string)
      modifies this
      ensures Now() == Connect(old(Now()), ws, user)
    {
      active := active + {ws};
      if user !in users {
        users := users[user := {}];
      }
      users := users[user := users[user] + {ws}];
    }

    method DisconnectSocket(ws: Socket, user: string)
      modifies this
      ensures Now() == Disconnect(old(Now()), ws, user)
    {
      active := active - {ws};
      DropSubscriptions(ws);
      if user in users {
        users := users[user := users[user] - {ws}];
        if users[user] == {} {
          users := users - {user};
        }
      }
      UserDropped(old(users), users, ws, user);
    }

    method DropSubscriptions(ws: Socket)
      modifies this`subscriptions
      ensures subscriptions == map c <- old(subscriptions) :: old(subscriptions)[c] - {ws}
    {
      var keys := subscriptions.Keys;
      while keys != {}
        invariant keys <= subscriptions.Keys == old(subscriptions).Keys
        invariant forall c <- subscriptions ::
                    subscriptions[c] == if c in keys then old(subscriptions)[c] else old(subscriptions)[c] - {ws}
        decreases |keys|
      {
        var c :| c in keys;
        subscriptions := subscriptions[c := subscriptions[c] - {ws}];
        keys := keys - {c};
      }
    }

    method Join(key: string, ws: Socket)
      modifies this
      ensures Now() == Subscribe(old(Now()), key, ws)
    {
      if key !in subscriptions {
        subscriptions := subscriptions[key := {}];
      }
      subscriptions := subscriptions[key := subscriptions[key] + {ws}];
    }

    method Leave(key: string, ws: Socket) returns (channel: Option<string>)
      modifies this
      ensures Now() == Unsubscribe(old(Now()), key, ws)
      ensures channel == if key in old(subscriptions) then Some(key) else None
    {
      if key in subscriptions {
        subscriptions := subscriptions[key := subscriptions[key] - {ws}];
        if subscriptions[key] == {} {
          subscriptions := subscriptions - {key};
        }
        assert subscriptions == Unsubscribe(old(Now()), key, ws).subscriptions;
        return Some(key);
      }
      channel := None;
    }

    /** One turn of the message loop. */
    method Receive(ws: Socket, user: string, f: Frame) returns (reply: Option<Reply>)
      modifies this
      ensures Now() == Handle(old(Now()), ws, user, f)
      ensures reply == Answer(old(Now()), user, f)
    {
      if f.Malformed? {
        return Some(BadFormat);
      }
      match f.kind {
        case Heartbeat =>
          reply := Some(Pong);
        case SubscribeGraphExec =>
          reply := HandleSubscribe(ws, user, f.kind, f.data);
        case SubscribeGraphExecs =>
          reply := HandleSubscribe(ws, user, f.kind, f.data);
        case UnsubscribeMethod =>
          reply := HandleUnsubscribe(ws, user, f.data);
        case ErrorMethod =>
          reply := None;
        case _ =>
          reply := Some(NotProcessed);
      }
    }

    method HandleSubscribe(ws: Socket, user: string, kind: Method, data: Data) returns (reply: Option<Reply>)
      requires kind.SubscribeGraphExec? || kind.SubscribeGraphExecs?
      modifies this
      ensures Now() == Handle(old(Now()), ws, user, Message(kind, data))
      ensures reply == Answer(old(Now()), user, Message(kind, data))
    {
      if data.Missing? {
        return Some(DataMissing);
      }
      var key;
      if kind.SubscribeGraphExec? {
        if data.graphExecId.None? {
          return Some(BadData);
        }
        key := ExecKey(user, data.graphExecId.value);
      } else {
        if data.graphId.None? {
          return Some(BadData);
        }
        key := GraphKey(user, data.graphId.value);
      }
      Join(key, ws);
      reply := Some(Joined(kind, key));
    }

    method HandleUnsubscribe(ws: Socket, user: string, data: Data) returns (reply: Option<Reply>)
      modifies this
      ensures Now() == Handle(old(Now()), ws, user, Message(UnsubscribeMethod, data))
      ensures reply == Answer(old(Now()), user, Message(UnsubscribeMethod, data))
    {
      if data.Missing? {
        return Some(DataMissing);
      }
      if data.graphExecId.None? {
        return Some(BadData);
      }
      var channel := Leave(ExecKey(user, data.graphExecId.value), ws);
      reply := Some(Left(channel));
    }

    /** Sends an update to the members of its channels; returns what was sent, and how many. */
    method SendUpdate(u: Update) returns (sent: seq<(string, Socket)>, n: nat)
      ensures n == |sent| == |Recipients(Now(), u)|
      ensures forall p :: p in sent <==> p in Recipients(Now(), u)
    {
      var channels := Channels(u) * subscriptions.Keys;
      sent, n := [], 0;
      ghost var done: set<(string, Socket)> := {};
      NothingSent(subscriptions, Channels(u));
      while channels != {}
        invariant channels <= Channels(u) * subscriptions.Keys
        invariant done == Pairs(subscriptions, Channels(u) - channels)
        invariant n == |sent| == |done| && forall p :: p in sent <==> p in done
        decreases |channels|
      {
        var channel :| channel in channels;
        ghost var more := PairsOf(channel, subscriptions[channel]);
        var out := SendTo(channel);
        OneChannelMore(subscriptions, Channels(u), channels, channel);
        hide Pairs, PairsOf, Channels;
        sent := sent + out;
        n := n + |out|;
        channels := channels - {channel};
        done := done + more;
      }
      AllSent(Now(), u);
    }

    method SendTo(channel: string) returns (sent: seq<(string, Socket)>)
      requires channel in subscriptions
      ensures var all := PairsOf(channel, subscriptions[channel]);
              |sent| == |all| && forall p :: p in sent <==> p in all
    {
      var members := subscriptions[channel];
      sent := [];
      ghost var done: set<(string, Socket)> := {};
      while members != {}
        invariant members <= subscriptions[channel]
        invariant done == PairsOf(channel, subscriptions[channel] - members)
        invariant |sent| == |done| && forall p :: p in sent <==> p in done
        decreases |members|
      {
        var ws :| ws in members;
        sent := sent + [(channel, ws)];
        OneMemberMore(channel, subscriptions[channel], members, ws);
        members := members - {ws};
        done := done + {(channel, ws)};
      }
      assert subscriptions[channel] - members == subscriptions[channel];
    }

    method SendNotification(user: string) returns (connections: set<Socket>, n: nat)
      ensures connections == Members(users, user) && n == |connections|
    {
      connections := if user in users then users[user] else {};
      n := |connections|;
    }
  }
}
