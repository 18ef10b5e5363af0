/** Every run of the WebSocket server: connections, messages and disconnects in any order. */
module ConnectionRuns {
  import opened ConnectionManager
  import opened Prelude

  /** `sessions` are the open connections and the users they authenticated as. */
  datatype World = World(manager: Manager, sessions: map<Socket, string>, seen: set<Socket>, gauge: int)

  const START := World(Manager({}, map[], map[]), map[], {}, 0)

  /** Opening with an empty user is a refused authentication; every connection has a socket of its own. */
  datatype Event = Open(ws: Socket, user: string) | Receives(ws: Socket, frame: Frame) | Close(ws: Socket)

  function Step(w: World, e: Event): World {
    match e
    case Open(ws, user) =>
      if ws in w.seen then w
      else if user == "" then w.(seen := w.seen + {ws})
      else World(Connect(w.manager, ws, user), w.sessions[ws := user], w.seen + {ws}, w.gauge + 1)
    case Receives(ws, f) =>
      if ws !in w.sessions then w else w.(manager := Handle(w.manager, ws, w.sessions[ws], f))
    case Close(ws) =>
      if ws !in w.sessions then w
      else w.(manager := Disconnect(w.manager, ws, w.sessions[ws]), sessions := w.sessions - {ws}, gauge := w.gauge - 1)
  }

  function Run(es: seq<Event>): World
    decreases es
  {
    if es == [] then START else Step(Run(es[..|es| - 1]), es[|es| - 1])
  }

  // ---------------------------------------------------------------- the relation

  /** Whether a socket has joined a channel and not left it or closed since. */
  predicate Subscribed(es: seq<Event>, channel: string, ws: Socket)
    decreases es
  {
    if es == [] then false
    else
      var before := es[..|es| - 1];
      var sessions := Run(before).sessions;
      var e := es[|es| - 1];
      if e.ws != ws || ws !in sessions then Subscribed(before, channel, ws)
      else
        match e
        case Open(_, _) => Subscribed(before, channel, ws)
        case Receives(_, f) =>
          Joins(sessions[ws], f) == Some(channel)
          || (Leaves(sessions[ws], f) != Some(channel) && Subscribed(before, channel, ws))
        case Close(_) => false
  }

  /** The indexes say what the sessions and the relation say. */
  ghost predicate Agrees(w: World, es: seq<Event>) {
    RelationAgrees(w, es) && IndexesAgree(w)
  }

  ghost predicate RelationAgrees(w: World, es: seq<Event>) {
    forall c: string, ws: Socket :: ws in Members(w.manager.subscriptions, c) <==> Subscribed(es, c, ws)
  }

  ghost predicate IndexesAgree(w: World) {
    && w.manager.active == w.sessions.Keys
    && w.sessions.Keys <= w.seen
    && w.gauge == |w.sessions|
    && Tidy(w.manager)
    && UsersAgree(w)
  }

  ghost predicate UsersAgree(w: World) {
    forall u: string, ws: Socket :: ws in Members(w.manager.users, u) <==> ws in w.sessions && w.sessions[ws] == u
  }

  lemma SessionsStep(w: World, e: Event)
    requires IndexesAgree(w)
    ensures var r := Step(w, e);
            r.manager.active == r.sessions.Keys && r.sessions.Keys <= r.seen && r.gauge == |r.sessions|
  {
    hide Handle, Tidy, Members;
    HandleKeeps(w.manager, e);
    var r := Step(w, e);
    if e.Close? && e.ws in w.sessions {
      assert r.sessions.Keys == w.sessions.Keys - {e.ws};
      assert |r.sessions.Keys| == |w.sessions.Keys| - 1;
    }
    if e.Open? && e.ws !in w.seen && e.user != "" {
      assert r.sessions.Keys == w.sessions.Keys + {e.ws};
    }
  }

  lemma HandleKeeps(m: Manager, e: Event)
    ensures e.Receives? ==> forall user :: Handle(m, e.ws, user, e.frame).active == m.active
    ensures e.Receives? ==> forall user :: Handle(m, e.ws, user, e.frame).users == m.users
  {
  }

  lemma UsersStep(w: World, e: Event, u: string, ws: Socket)
    requires IndexesAgree(w)
    ensures var r := Step(w, e);
            Tidy(r.manager) && (ws in Members(r.manager.users, u) <==> ws in r.sessions && r.sessions[ws] == u)
  {
    HandleKeeps(w.manager, e);
    hide Handle, Connect, Disconnect, Members;
    assert ws in Members(w.manager.users, u) <==> ws in w.sessions && w.sessions[ws] == u;
    match e
    case Open(x, user) => AfterConnect(w.manager, x, user, u, ws);
    case Receives(_, _) =>
    case Close(x) =>
      if x in w.sessions {
        AfterDisconnect(w.manager, x, w.sessions[x], u, ws);
      }
  }

  lemma SubscriptionsStep(es: seq<Event>, e: Event, c: string, ws: Socket)
    requires Agrees(Run(es), es)
    ensures ws in Members(Run(es + [e]).manager.subscriptions, c) <==> Subscribed(es + [e], c, ws)
  {
    var w := Run(es);
    assert (es + [e])[..|es + [e]| - 1] == es;
    assert Run(es + [e]) == Step(w, e);
    assert ws in Members(w.manager.subscriptions, c) <==> Subscribed(es, c, ws);
    match e
    case Open(_, _) =>
    case Receives(x, f) =>
      if x in w.sessions {
        HandleChanges(w.manager, x, w.sessions[x], f, c, ws);
      }
    case Close(x) =>
      if x in w.sessions {
        AfterDisconnect(w.manager, x, w.sessions[x], c, ws);
      }
  }

  lemma HandleChanges(m: Manager, x: Socket, user: string, f: Frame, c: string, ws: Socket)
    ensures ws in Members(Handle(m, x, user, f).subscriptions, c)
            <==> (x == ws && Joins(user, f) == Some(c))
                 || (!(x == ws && Leaves(user, f) == Some(c)) && ws in Members(m.subscriptions, c))
  {
    hide Subscribe, Unsubscribe, Members;
    if Joins(user, f).Some? {
      AfterSubscribe(m, Joins(user, f).value, x, c, ws);
    } else if Leaves(user, f).Some? {
      AfterUnsubscribe(m, Leaves(user, f).value, x, c, ws);
    }
  }

  lemma {:induction false} RunAgrees(es: seq<Event>)
    ensures Agrees(Run(es), es)
    decreases es
  {
    if es == [] {
    } else {
      var before, e := es[..|es| - 1], es[|es| - 1];
      assert es == before + [e];
      RunAgrees(before);
      StepAgrees(before, e);
    }
  }

  lemma StepAgrees(es: seq<Event>, e: Event)
    requires Agrees(Run(es), es)
    ensures Agrees(Run(es + [e]), es + [e])
  {
    assert (es + [e])[..|es + [e]| - 1] == es;
    IndexesStep(Run(es), e);
    forall c: string, ws: Socket
      ensures ws in Members(Run(es + [e]).manager.subscriptions, c) <==> Subscribed(es + [e], c, ws)
    {
      SubscriptionsStep(es, e, c, ws);
    }
    hide Step, Members, Subscribed, IndexesAgree;
  }

  lemma IndexesStep(w: World, e: Event)
    requires IndexesAgree(w)
    ensures IndexesAgree(Step(w, e))
  {
    SessionsStep(w, e);
    UsersStep(w, e, "", 0);
    AllUsersStep(w, e);
    hide Step, Members, Tidy, UsersAgree;
  }

  lemma AllUsersStep(w: World, e: Event)
    requires IndexesAgree(w)
    ensures UsersAgree(Step(w, e))
  {
    hide Step, Members, Tidy;
    forall u: string, ws: Socket
      ensures ws in Members(Step(w, e).manager.users, u) <==> ws in Step(w, e).sessions && Step(w, e).sessions[ws] == u
    {
      UsersStep(w, e, u, ws);
    }
  }

  // ---------------------------------------------------------------- channel keys

  const EXEC_MARK := "|graph_exec#"
  const GRAPH_MARK := "|graph#"

  ghost predicate IsChannelOf(channel: string, user: string) {
    exists id :: channel == ExecKey(user, id) || channel == GraphKey(user, id)
  }

  /** The longer user id begins with the shorter one and a mark. */
  predicate Begins(a: string, b: string) {
    a + EXEC_MARK <= b || a + GRAPH_MARK <= b
  }

  /** One of two user ids can be taken for the beginning of the other's channels. */
  predicate Confusable(a: string, b: string) {
    Begins(a, b) || Begins(b, a)
  }

  lemma ExecParts(user: string, id: string)
    ensures ExecKey(user, id) == user + EXEC_MARK + id && IsChannelOf(ExecKey(user, id), user)
  {
  }

  lemma GraphParts(user: string, id: string)
    ensures GraphKey(user, id) == user + GRAPH_MARK + (id + "|executions") && IsChannelOf(GraphKey(user, id), user)
  {
  }

  lemma MarksBeginWithBar(k: nat)
    ensures 0 < k < |EXEC_MARK| ==> EXEC_MARK[k] != '|'
    ensures 0 < k < |GRAPH_MARK| ==> GRAPH_MARK[k] != '|'
    ensures EXEC_MARK[0] == GRAPH_MARK[0] == '|'
  {
  }

  /** A channel is its user's id, a mark, and a rest. */
  lemma ChannelParts(channel: string, user: string) returns (mark: string, rest: string)
    requires IsChannelOf(channel, user)
    ensures channel == user + mark + rest && mark in {EXEC_MARK, GRAPH_MARK}
  {
    var id :| channel == ExecKey(user, id) || channel == GraphKey(user, id);
    ExecParts(user, id);
    GraphParts(user, id);
    if channel == ExecKey(user, id) {
      mark, rest := EXEC_MARK, id;
    } else {
      mark, rest := GRAPH_MARK, id + "|executions";
    }
  }

  /** The longer of two users of a channel begins with the shorter one and its mark. */
  lemma LongerBegins(channel: string, a: string, b: string)
    requires |a| < |b| && IsChannelOf(channel, a) && IsChannelOf(channel, b)
    ensures Begins(a, b)
  {
    var mark, rest := ChannelParts(channel, a);
    var other, more := ChannelParts(channel, b);
    var k := |b| - |a|;
    MarksBeginWithBar(k);
    forall j | |a| < j < |a| + |mark|
      ensures channel[j] != '|'
    {
      MarksBeginWithBar(j - |a|);
    }
    assert channel[|b|] == other[0] == '|' && channel[..|b|] == b;
    assert k >= |mark|;
    assert b[..|a| + |mark|] == channel[..|a| + |mark|] == a + mark;
  }

  lemma BeginsShare(a: string, b: string) returns (id: string, own: string)
    requires Begins(a, b)
    ensures ExecKey(a, id) == ExecKey(b, own) || GraphKey(a, id) == GraphKey(b, own)
  {
    own := "";
    if a + EXEC_MARK <= b {
      var x := b[|a + EXEC_MARK|..];
      assert b == a + EXEC_MARK + x;
      id := x + EXEC_MARK;
      ExecParts(a, id);
      ExecParts(b, own);
      assert a + EXEC_MARK + (x + EXEC_MARK) == b + EXEC_MARK + "";
    } else {
      var x := b[|a + GRAPH_MARK|..];
      assert b == a + GRAPH_MARK + x;
      id := x + GRAPH_MARK;
      GraphParts(a, id);
      GraphParts(b, own);
      assert a + GRAPH_MARK + (x + GRAPH_MARK + "|executions") == b + GRAPH_MARK + ("" + "|executions");
    }
  }

  /** Two users have a channel in common exactly if one of their ids begins with the other and a mark. */
  lemma ShareChannelIff(a: string, b: string)
    requires a != b
    ensures (exists channel :: IsChannelOf(channel, a) && IsChannelOf(channel, b)) <==> Confusable(a, b)
  {
    if channel :| IsChannelOf(channel, a) && IsChannelOf(channel, b) {
      SharedIsConfusable(channel, a, b);
    }
    if Confusable(a, b) {
      var id, own, channel := ConfusableShare(a, b);
      assert IsChannelOf(channel, a) && IsChannelOf(channel, b);
    }
  }

  lemma SharedIsConfusable(channel: string, a: string, b: string)
    requires a != b && IsChannelOf(channel, a) && IsChannelOf(channel, b)
    ensures Confusable(a, b)
  {
    var mark, rest := ChannelParts(channel, a);
    var other, more := ChannelParts(channel, b);
    assert channel[..|a|] == a && channel[..|b|] == b;
    if |a| < |b| {
      LongerBegins(channel, a, b);
    } else {
      LongerBegins(channel, b, a);
    }
  }

  lemma ConfusableShare(a: string, b: string) returns (id: string, own: string, channel: string)
    requires Confusable(a, b)
    ensures (channel == ExecKey(a, id) == ExecKey(b, own)) || (channel == GraphKey(a, id) == GraphKey(b, own))
    ensures IsChannelOf(channel, a) && IsChannelOf(channel, b)
  {
    if Begins(a, b) {
      id, own := BeginsShare(a, b);
    } else {
      own, id := BeginsShare(b, a);
    }
    ExecParts(a, id);
    ExecParts(b, own);
    GraphParts(a, id);
    GraphParts(b, own);
    channel := if ExecKey(a, id) == ExecKey(b, own) then ExecKey(a, id) else GraphKey(a, id);
  }

  /** The channels of one user: an execution's is never a graph's, and different ids have different ones. */
  lemma KeysDiffer(user: string, id: string, other: string)
    ensures ExecKey(user, id) != GraphKey(user, other)
    ensures ExecKey(user, id) == ExecKey(user, other) ==> id == other
    ensures GraphKey(user, id) == GraphKey(user, other) ==> id == other
  {
    assert ExecKey(user, id)[|user| + 6] == '_' && GraphKey(user, other)[|user| + 6] == '#';
    if ExecKey(user, id) == ExecKey(user, other) {
      assert ExecKey(user, id)[|user| + 12..] == id && ExecKey(user, other)[|user| + 12..] == other;
    }
    if GraphKey(user, id) == GraphKey(user, other) {
      assert |id| == |other|;
      assert GraphKey(user, id)[|user| + 7..][..|id|] == id && GraphKey(user, other)[|user| + 7..][..|id|] == other;
    }
  }

  lemma HandleJoinsOwn(user: string, f: Frame)
    ensures Joins(user, f).Some? ==> IsChannelOf(Joins(user, f).value, user)
  {
  }

  /** Every subscription is an open connection's, to a channel of the user it authenticated as. */
  lemma {:induction false} SubscriberOwnsChannel(es: seq<Event>, channel: string, ws: Socket)
    requires Subscribed(es, channel, ws)
    ensures ws in Run(es).sessions && IsChannelOf(channel, Run(es).sessions[ws])
    decreases es
  {
    hide Handle, Joins, Leaves, IsChannelOf, Connect, Disconnect;
    var before, e := es[..|es| - 1], es[|es| - 1];
    var w := Run(before);
    RunAgrees(before);
    if Subscribed(before, channel, ws) {
      SubscriberOwnsChannel(before, channel, ws);
    } else {
      HandleJoinsOwn(w.sessions[ws], e.frame);
    }
  }

  lemma {:induction false} SessionsAreOpened(es: seq<Event>, ws: Socket)
    requires ws in Run(es).sessions
    ensures Open(ws, Run(es).sessions[ws]) in es && Run(es).sessions[ws] != ""
    decreases es
  {
    hide Handle, Connect, Disconnect;
    var before, e := es[..|es| - 1], es[|es| - 1];
    assert es == before + [e];
    if ws in Run(before).sessions {
      SessionsAreOpened(before, ws);
    }
  }

  // ---------------------------------------------------------------- main results

  /** In every run the subscription map, empty sets aside, is the relation, and the other indexes are the sessions. */
  lemma IndexesFollowTheRun(es: seq<Event>)
    ensures var w := Run(es);
            && (forall c: string, ws: Socket :: ws in Members(w.manager.subscriptions, c) <==> Subscribed(es, c, ws))
            && w.manager.active == w.sessions.Keys && w.gauge == |w.sessions|
            && (forall u: string, ws: Socket ::
                  ws in Members(w.manager.users, u) <==> ws in w.sessions && w.sessions[ws] == u)
  {
    RunAgrees(es);
    hide Run, Subscribed, Members;
  }

  /** A closed connection is in none of the indexes, and the other connections are where they were. */
  lemma ClosedIsGone(es: seq<Event>, ws: Socket)
    requires ws in Run(es).sessions
    ensures var w := Run(es).manager;
            var r := Run(es + [Close(ws)]).manager;
            && ws !in r.active
            && (forall k: string :: ws !in Members(r.subscriptions, k) && ws !in Members(r.users, k))
            && (forall k: string, x: Socket | x != ws ::
                  && (x in Members(r.subscriptions, k) <==> x in Members(w.subscriptions, k))
                  && (x in Members(r.users, k) <==> x in Members(w.users, k)))
  {
    assert (es + [Close(ws)])[..|es|] == es;
    RunAgrees(es);
    var w, user := Run(es).manager, Run(es).sessions[ws];
    var r := Disconnect(w, ws, user);
    assert Run(es + [Close(ws)]).manager == r;
    forall k: string, x: Socket
      ensures x in Members(r.users, k) <==> x in Members(w.users, k) && !(x == ws && k == user)
      ensures x in Members(r.subscriptions, k) <==> x in Members(w.subscriptions, k) && x != ws
    {
      AfterDisconnect(w, ws, user, k, x);
    }
    hide Run, Members;
  }

  /** An update reaches exactly the sockets subscribed to its one or two channels, and is counted once for each. */
  lemma UpdateReachesSubscribers(es: seq<Event>, u: Update)
    ensures var m := Run(es).manager;
            && (forall c: string, ws: Socket ::
                  (c, ws) in Recipients(m, u) <==> c in Channels(u) && Subscribed(es, c, ws))
            && |Recipients(m, u)| == match u
                                     case GraphUpdate(user, id, graphId) =>
                                       |Members(m.subscriptions, ExecKey(user, id))|
                                       + |Members(m.subscriptions, GraphKey(user, graphId))|
                                     case NodeUpdate(user, id) => |Members(m.subscriptions, ExecKey(user, id))|
  {
    RunAgrees(es);
    var m := Run(es).manager;
    assert forall c: string, ws: Socket :: ws in Members(m.subscriptions, c) <==> Subscribed(es, c, ws);
    assert forall c: string, ws: Socket ::
        (c, ws) in Recipients(m, u) <==> c in Channels(u) && Subscribed(es, c, ws) by {
      hide Run, Subscribed, ExecKey, GraphKey, Members, Channels;
    }
    hide Run, Subscribed, ExecKey, GraphKey, Members, Pairs;
    match u
    case GraphUpdate(user, id, graphId) =>
      KeysDiffer(user, id, graphId);
      CountTwo(m.subscriptions, ExecKey(user, id), GraphKey(user, graphId));
    case NodeUpdate(user, id) =>
      CountOne(m.subscriptions, ExecKey(user, id));
  }

  lemma CountOne(subscriptions: map<string, set<Socket>>, a: string)
    ensures |Pairs(subscriptions, {a})| == |Members(subscriptions, a)|
  {
    hide Members;
    CountPairs(a, Members(subscriptions, a));
    assert Pairs(subscriptions, {a}) == PairsOf(a, Members(subscriptions, a));
  }

  lemma CountTwo(subscriptions: map<string, set<Socket>>, a: string, b: string)
    requires a != b
    ensures |Pairs(subscriptions, {a, b})| == |Members(subscriptions, a)| + |Members(subscriptions, b)|
  {
    hide Members;
    var p, q := PairsOf(a, Members(subscriptions, a)), PairsOf(b, Members(subscriptions, b));
    CountPairs(a, Members(subscriptions, a));
    CountPairs(b, Members(subscriptions, b));
    assert Pairs(subscriptions, {a, b}) == p + q && p !! q;
    hide Pairs, PairsOf;
  }

  lemma {:induction false} CountPairs(c: string, members: set<Socket>)
    ensures |PairsOf(c, members)| == |members|
    decreases |members|
  {
    if members == {} {
    } else {
      var ws :| ws in members;
      CountPairs(c, members - {ws});
      assert PairsOf(c, members) == PairsOf(c, members - {ws}) + {(c, ws)};
    }
  }

  lemma ChannelsAreOwn(u: Update, channel: string)
    requires channel in Channels(u)
    ensures IsChannelOf(channel, u.user)
  {
    match u
    case GraphUpdate(user, id, graphId) =>
      ExecParts(user, id);
      GraphParts(user, graphId);
    case NodeUpdate(user, id) =>
      ExecParts(user, id);
  }

  /** The update `u` of user `a` reaches a connection that authenticated as `b`. */
  ghost predicate Reaches(es: seq<Event>, u: Update, channel: string, ws: Socket, a: string, b: string) {
    && u.user == a && (channel, ws) in Recipients(Run(es).manager, u)
    && ws in Run(es).sessions && Run(es).sessions[ws] == b
  }

  /**
   * Whoever gets an update authenticated as the user it belongs to, in every run in which no user's
   * id can be confused with that user's; ids without a `|` cannot.
   */
  lemma RecipientsAreTheUser(es: seq<Event>, u: Update, channel: string, ws: Socket)
    requires forall e <- es :: e.Open? ==> !Confusable(u.user, e.user)
    requires (channel, ws) in Recipients(Run(es).manager, u)
    ensures ws in Run(es).sessions && Run(es).sessions[ws] == u.user
  {
    UpdateReachesSubscribers(es, u);
    SubscriberOwnsChannel(es, channel, ws);
    SessionsAreOpened(es, ws);
    ChannelsAreOwn(u, channel);
    hide Run, Recipients, Confusable, IsChannelOf;
    if Run(es).sessions[ws] != u.user {
      SharedIsConfusable(channel, u.user, Run(es).sessions[ws]);
    }
  }

  lemma PlainIsNotConfused(a: string, b: string)
    requires '|' !in a && '|' !in b
    ensures !Confusable(a, b)
  {
    if Begins(a, b) {
      BeginsHasBar(a, b);
    } else if Begins(b, a) {
      BeginsHasBar(b, a);
    }
  }

  lemma BeginsHasBar(a: string, b: string)
    requires Begins(a, b)
    ensures '|' in b
  {
    MarksBeginWithBar(0);
    assert b[|a|] == '|';
  }

  /**
   * Some run lets an update of user `a` reach a connection of another user `b` exactly if their ids
   * can be confused.
   */
  lemma AnotherUserIsReachedIff(a: string, b: string)
    requires a != b
    ensures (exists es, u, channel, ws :: Reaches(es, u, channel, ws, a, b)) <==> b != "" && Confusable(a, b)
  {
    if es, u, channel, ws :| Reaches(es, u, channel, ws, a, b) {
      ReachedIsConfusable(es, u, channel, ws, a, b);
    }
    if b != "" && Confusable(a, b) {
      ConfusableIsReached(a, b);
    }
  }

  lemma ReachedIsConfusable(es: seq<Event>, u: Update, channel: string, ws: Socket, a: string, b: string)
    requires a != b && Reaches(es, u, channel, ws, a, b)
    ensures b != "" && Confusable(a, b)
  {
    UpdateReachesSubscribers(es, u);
    SubscriberOwnsChannel(es, channel, ws);
    SessionsAreOpened(es, ws);
    ChannelsAreOwn(u, channel);
    SharedIsConfusable(channel, a, b);
  }

  lemma ConfusableIsReached(a: string, b: string)
    requires b != "" && Confusable(a, b)
    ensures exists es, u, channel, ws :: Reaches(es, u, channel, ws, a, b)
  {
    var id, own, channel := ConfusableShare(a, b);
    var exec := channel == ExecKey(a, id) == ExecKey(b, own);
    var f := if exec then Message(SubscribeGraphExec, Fields(Some(own), None))
             else Message(SubscribeGraphExecs, Fields(None, Some(own)));
    var u := if exec then NodeUpdate(a, id) else GraphUpdate(a, "", id);
    JoinsInTwoSteps(0, b, f, channel);
    assert Reaches([Open(0, b), Receives(0, f)], u, channel, 0, a, b);
  }

  lemma JoinsInTwoSteps(ws: Socket, user: string, f: Frame, channel: string)
    requires user != "" && Joins(user, f) == Some(channel)
    ensures var w := Run([Open(ws, user), Receives(ws, f)]);
            ws in w.sessions && w.sessions[ws] == user && ws in Members(w.manager.subscriptions, channel)
  {
    var es := [Open(ws, user), Receives(ws, f)];
    assert es[..1] == [Open(ws, user)] && es[..1][..0] == [];
    assert Run(es[..1]) == Step(START, Open(ws, user));
    assert Run(es) == Step(Run(es[..1]), Receives(ws, f));
  }

  /** A notification goes to exactly the open connections that authenticated as its user, once to each. */
  lemma NotificationReachesUser(es: seq<Event>, user: string)
    ensures var to := Members(Run(es).manager.users, user);
            to == set ws <- Run(es).sessions | Run(es).sessions[ws] == user
  {
    IndexesFollowTheRun(es);
    hide Run, Members, Subscribed;
  }

  /** A subscription to all executions of a graph lasts as long as the connection: no frame ends it. */
  lemma GraphSubscriptionStays(es: seq<Event>, ws: Socket, graphId: string, f: Frame)
    requires ws in Run(es).sessions && Subscribed(es, GraphKey(Run(es).sessions[ws], graphId), ws)
    ensures Subscribed(es + [Receives(ws, f)], GraphKey(Run(es).sessions[ws], graphId), ws)
  {
    assert (es + [Receives(ws, f)])[..|es|] == es;
    var user := Run(es).sessions[ws];
    if Leaves(user, f).Some? {
      KeysDiffer(user, f.data.graphExecId.value, graphId);
    }
    hide Run, ExecKey, GraphKey;
  }
}
