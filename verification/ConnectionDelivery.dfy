/** Who gets which update, told by the frames that were sent, and what the answers to frames say. */
module ConnectionDelivery {
  import opened ConnectionManager
  import opened ConnectionRuns
  import opened Prelude

  // ---------------------------------------------------------------- what a socket asked for

  /** The frame asks for the updates of one execution. */
  predicate WantsExec(f: Frame, id: string) {
    f.Message? && f.kind.SubscribeGraphExec? && f.data.Fields? && f.data.graphExecId == Some(id)
  }

  /** The frame asks for the updates of all executions of a graph. */
  predicate WantsGraph(f: Frame, graphId: string) {
    f.Message? && f.kind.SubscribeGraphExecs? && f.data.Fields? && f.data.graphId == Some(graphId)
  }

  /** The frame asks not to get the updates of one execution any more. */
  predicate UnwantsExec(f: Frame, id: string) {
    f.Message? && f.kind.UnsubscribeMethod? && f.data.Fields? && f.data.graphExecId == Some(id)
  }

  predicate Opens(e: Event, ws: Socket) {
    e.Open? && e.ws == ws
  }

  predicate AsksForExec(e: Event, ws: Socket, id: string) {
    e.Receives? && e.ws == ws && WantsExec(e.frame, id)
  }

  predicate AsksForGraph(e: Event, ws: Socket, graphId: string) {
    e.Receives? && e.ws == ws && WantsGraph(e.frame, graphId)
  }

  predicate DropsExec(e: Event, ws: Socket, id: string) {
    e.Receives? && e.ws == ws && UnwantsExec(e.frame, id)
  }

  /** The socket was opened at `k`, for the first time and by that user, and has not closed since. */
  ghost predicate OpenedAt(es: seq<Event>, k: nat, ws: Socket, user: string) {
    && k < |es| && es[k] == Open(ws, user) && user != ""
    && (forall j :: 0 <= j < k ==> !Opens(es[j], ws))
    && (forall j :: k < j < |es| ==> es[j] != Close(ws))
  }

  /** Since `k` the socket has asked for the execution, and has not asked to drop it after that. */
  ghost predicate ExecWanted(es: seq<Event>, k: nat, ws: Socket, id: string) {
    exists j :: k < j < |es| && AsksForExec(es[j], ws, id) && forall i :: j < i < |es| ==> !DropsExec(es[i], ws, id)
  }

  /** Since `k` the socket has asked for the executions of the graph. */
  ghost predicate GraphWanted(es: seq<Event>, k: nat, ws: Socket, graphId: string) {
    exists j :: k < j < |es| && AsksForGraph(es[j], ws, graphId)
  }

  // ---------------------------------------------------------------- sessions

  lemma RunGrows(es: seq<Event>, e: Event)
    ensures Run(es + [e]) == Step(Run(es), e)
  {
    assert (es + [e])[..|es|] == es;
  }

  lemma SessionStep(w: World, e: Event, ws: Socket)
    requires w.sessions.Keys <= w.seen
    ensures var r := Step(w, e);
            && r.sessions.Keys <= r.seen
            && (ws in r.seen <==> ws in w.seen || Opens(e, ws))
            && (Opens(e, ws) && ws !in w.seen && e.user != "" ==> ws in r.sessions && r.sessions[ws] == e.user)
            && (ws in r.sessions && !(Opens(e, ws) && ws !in w.seen) ==>
                  ws in w.sessions && r.sessions[ws] == w.sessions[ws])
            && (ws in w.sessions && e != Close(ws) ==> ws in r.sessions && r.sessions[ws] == w.sessions[ws])
            && (e == Close(ws) ==> ws !in r.sessions)
            && (Opens(e, ws) && ws !in w.seen && e.user == "" ==> ws !in r.sessions)
  {
    hide Handle, Connect, Disconnect;
  }

  lemma {:induction false} SeenIffOpened(es: seq<Event>, ws: Socket)
    ensures Run(es).sessions.Keys <= Run(es).seen
    ensures ws in Run(es).seen <==> exists j :: 0 <= j < |es| && Opens(es[j], ws)
    decreases es
  {
    hide Step;
    if es == [] {
      assert Run(es) == START;
    } else {
      var n := |es| - 1;
      assert es == es[..n] + [es[n]];
      RunGrows(es[..n], es[n]);
      SeenIffOpened(es[..n], ws);
      SessionStep(Run(es[..n]), es[n], ws);
      assert forall j :: 0 <= j < n ==> es[..n][j] == es[j];
    }
  }

  lemma OpenedMore(es: seq<Event>, e: Event, k: nat, ws: Socket, user: string)
    ensures k < |es| ==> (OpenedAt(es + [e], k, ws, user) <==> OpenedAt(es, k, ws, user) && e != Close(ws))
    ensures OpenedAt(es + [e], |es|, ws, user)
       <==> e == Open(ws, user) && user != "" && forall j :: 0 <= j < |es| ==> !Opens(es[j], ws)
    ensures k > |es| ==> !OpenedAt(es + [e], k, ws, user)
  {
    var more := es + [e];
    assert forall j :: 0 <= j < |es| ==> more[j] == es[j];
    assert more[|es|] == e;
  }

  /** The open connections of a run, told by its events. */
  lemma {:induction false} SessionIffOpened(es: seq<Event>, ws: Socket, user: string)
    ensures ws in Run(es).sessions && Run(es).sessions[ws] == user <==> exists k :: OpenedAt(es, k, ws, user)
    decreases es
  {
    hide Step, OpenedAt;
    if es == [] {
      NothingOpened(ws, user);
    } else {
      var n := |es| - 1;
      var before, e := es[..n], es[n];
      assert es == before + [e];
      RunGrows(before, e);
      SessionIffOpened(before, ws, user);
      SeenIffOpened(before, ws);
      SessionStep(Run(before), e, ws);
      OneMoreOpened(before, e, ws, user);
    }
  }

  lemma NothingOpened(ws: Socket, user: string)
    ensures Run([]) == START && !exists k: nat :: OpenedAt([], k, ws, user)
  {
  }

  lemma OneMoreOpened(es: seq<Event>, e: Event, ws: Socket, user: string)
    ensures (exists k :: OpenedAt(es + [e], k, ws, user))
       <==> || ((exists k :: OpenedAt(es, k, ws, user)) && e != Close(ws))
            || (e == Open(ws, user) && user != "" && forall j :: 0 <= j < |es| ==> !Opens(es[j], ws))
  {
    hide Opens;
    if k :| OpenedAt(es + [e], k, ws, user) {
      OpenedMore(es, e, k, ws, user);
    }
    if k :| OpenedAt(es, k, ws, user) && e != Close(ws) {
      OpenedMore(es, e, k, ws, user);
    }
    OpenedMore(es, e, 0, ws, user);
  }

  // ---------------------------------------------------------------- the relation, told by the frames

  lemma FramesTell(user: string, f: Frame, id: string)
    ensures Joins(user, f) == Some(ExecKey(user, id)) <==> WantsExec(f, id)
    ensures Joins(user, f) == Some(GraphKey(user, id)) <==> WantsGraph(f, id)
    ensures Leaves(user, f) == Some(ExecKey(user, id)) <==> UnwantsExec(f, id)
    ensures Leaves(user, f) != Some(GraphKey(user, id))
  {
    hide ExecKey, GraphKey;
    if f.Message? && f.data.Fields? && f.data.graphExecId.Some? {
      KeysDiffer(user, f.data.graphExecId.value, id);
    }
    if f.Message? && f.data.Fields? && f.data.graphId.Some? {
      KeysDiffer(user, f.data.graphId.value, id);
      KeysDiffer(user, id, f.data.graphId.value);
    }
  }

  lemma SubscribedMore(es: seq<Event>, e: Event, channel: string, ws: Socket)
    ensures Subscribed(es + [e], channel, ws)
       <==> if e.ws != ws || ws !in Run(es).sessions || e.Open? then Subscribed(es, channel, ws)
            else
              && e.Receives?
              && (|| Joins(Run(es).sessions[ws], e.frame) == Some(channel)
                  || (Leaves(Run(es).sessions[ws], e.frame) != Some(channel) && Subscribed(es, channel, ws)))
  {
    assert (es + [e])[..|es|] == es;
    hide Run, Joins, Leaves;
  }

  lemma WantedMore(es: seq<Event>, e: Event, k: nat, ws: Socket, id: string)
    requires k < |es|
    ensures ExecWanted(es + [e], k, ws, id)
       <==> AsksForExec(e, ws, id) || (ExecWanted(es, k, ws, id) && !DropsExec(e, ws, id))
    ensures GraphWanted(es + [e], k, ws, id) <==> AsksForGraph(e, ws, id) || GraphWanted(es, k, ws, id)
  {
    hide AsksForExec, AsksForGraph, DropsExec;
    var more := es + [e];
    assert forall j :: 0 <= j < |es| ==> more[j] == es[j];
    assert more[|es|] == e;
    if j :| k < j < |es| && AsksForExec(es[j], ws, id) && forall i :: j < i < |es| ==> !DropsExec(es[i], ws, id) {
      assert AsksForExec(more[j], ws, id);
    }
    if j :| k < j < |es| && AsksForGraph(es[j], ws, id) {
      assert AsksForGraph(more[j], ws, id);
    }
    if AsksForExec(e, ws, id) {
      assert AsksForExec(more[|es|], ws, id);
    }
    if AsksForGraph(e, ws, id) {
      assert AsksForGraph(more[|es|], ws, id);
    }
  }

  lemma {:induction false} SubscribedIffWanted(es: seq<Event>, k: nat, ws: Socket, user: string, id: string)
    requires OpenedAt(es, k, ws, user)
    ensures Subscribed(es, ExecKey(user, id), ws) <==> ExecWanted(es, k, ws, id)
    ensures Subscribed(es, GraphKey(user, id), ws) <==> GraphWanted(es, k, ws, id)
    decreases es
  {
    var n := |es| - 1;
    var before, e := es[..n], es[n];
    assert es == before + [e];
    OpenedMore(before, e, k, ws, user);
    if k == n {
      FreshIsUnsubscribed(before, e, ws, user, id);
    } else {
      hide OpenedAt, ExecWanted, GraphWanted, Subscribed, Joins, Leaves, WantsExec, WantsGraph, UnwantsExec;
      SessionIffOpened(before, ws, user);
      SubscribedIffWanted(before, k, ws, user, id);
      SubscribedMore(before, e, ExecKey(user, id), ws);
      SubscribedMore(before, e, GraphKey(user, id), ws);
      WantedMore(before, e, k, ws, id);
      if e.Receives? {
        FramesTell(user, e.frame, id);
      }
      NotClosed(es, k, ws, user);
    }
  }

  lemma NotClosed(es: seq<Event>, k: nat, ws: Socket, user: string)
    requires OpenedAt(es, k, ws, user)
    ensures k < |es| && (k < |es| - 1 ==> es[|es| - 1] != Close(ws))
  {
  }

  /** A connection that has just been opened has no subscription. */
  lemma FreshIsUnsubscribed(es: seq<Event>, e: Event, ws: Socket, user: string, id: string)
    requires OpenedAt(es + [e], |es|, ws, user)
    ensures !Subscribed(es + [e], ExecKey(user, id), ws) && !ExecWanted(es + [e], |es|, ws, id)
    ensures !Subscribed(es + [e], GraphKey(user, id), ws) && !GraphWanted(es + [e], |es|, ws, id)
  {
    OpenedMore(es, e, |es|, ws, user);
    SeenIffOpened(es, ws);
    SubscribedMore(es, e, ExecKey(user, id), ws);
    SubscribedMore(es, e, GraphKey(user, id), ws);
    hide Subscribed, Run;
    if Subscribed(es, ExecKey(user, id), ws) {
      SubscriberOwnsChannel(es, ExecKey(user, id), ws);
    }
    if Subscribed(es, GraphKey(user, id), ws) {
      SubscriberOwnsChannel(es, GraphKey(user, id), ws);
    }
  }

  // ---------------------------------------------------------------- main results

  /**
   * In every run an open connection of a user gets an update of that user's execution on the
   * execution's channel exactly if it has asked for the execution and not dropped it since, and on the
   * graph's channel exactly if it has asked for the graph's executions.
   */
  lemma OwnUpdateArrivesIff(es: seq<Event>, k: nat, ws: Socket, user: string, id: string, graphId: string)
    requires OpenedAt(es, k, ws, user)
    ensures var got := Recipients(Run(es).manager, GraphUpdate(user, id, graphId));
            && ((ExecKey(user, id), ws) in got <==> ExecWanted(es, k, ws, id))
            && ((GraphKey(user, graphId), ws) in got <==> GraphWanted(es, k, ws, graphId))
    ensures (ExecKey(user, id), ws) in Recipients(Run(es).manager, NodeUpdate(user, id)) <==> ExecWanted(es, k, ws, id)
  {
    hide Recipients, Subscribed, ExecKey, GraphKey, Run, OpenedAt, ExecWanted, GraphWanted, Members;
    UpdateReachesSubscribers(es, GraphUpdate(user, id, graphId));
    UpdateReachesSubscribers(es, NodeUpdate(user, id));
    SubscribedIffWanted(es, k, ws, user, id);
    SubscribedIffWanted(es, k, ws, user, graphId);
  }

  /** The execution that an update is about. */
  function ExecOf(u: Update): string {
    if u.GraphUpdate? then u.id else u.graphExecId
  }

  /** The socket was opened at `k` for the update's user, and has asked for it to come on the channel. */
  ghost predicate DueSince(es: seq<Event>, k: nat, u: Update, channel: string, ws: Socket) {
    && OpenedAt(es, k, ws, u.user)
    && (|| (channel == ExecKey(u.user, ExecOf(u)) && ExecWanted(es, k, ws, ExecOf(u)))
        || (u.GraphUpdate? && channel == GraphKey(u.user, u.graphId) && GraphWanted(es, k, ws, u.graphId)))
  }

  /**
   * In every run in which no connected id can be confused with the user of an update, the update goes
   * to exactly the sockets it is due to, on the channels it is due on.
   */
  lemma UpdateArrivesIffDue(es: seq<Event>, u: Update, channel: string, ws: Socket)
    requires forall e <- es :: e.Open? ==> !Confusable(u.user, e.user)
    ensures (channel, ws) in Recipients(Run(es).manager, u) <==> exists k :: DueSince(es, k, u, channel, ws)
  {
    hide Run, OpenedAt, ExecWanted, GraphWanted, Confusable, ExecKey, GraphKey, Recipients;
    if (channel, ws) in Recipients(Run(es).manager, u) {
      OnOwnChannels(es, u, channel, ws);
      RecipientsAreTheUser(es, u, channel, ws);
      SessionIffOpened(es, ws, u.user);
      var k :| OpenedAt(es, k, ws, u.user);
      ArrivesIff(es, k, u, ws);
      assert DueSince(es, k, u, channel, ws);
    }
    if k :| DueSince(es, k, u, channel, ws) {
      ArrivesIff(es, k, u, ws);
    }
  }

  lemma OnOwnChannels(es: seq<Event>, u: Update, channel: string, ws: Socket)
    requires (channel, ws) in Recipients(Run(es).manager, u)
    ensures channel == ExecKey(u.user, ExecOf(u)) || (u.GraphUpdate? && channel == GraphKey(u.user, u.graphId))
  {
    hide Run, ExecKey, GraphKey, Members;
  }

  lemma ArrivesIff(es: seq<Event>, k: nat, u: Update, ws: Socket)
    requires OpenedAt(es, k, ws, u.user)
    ensures var got := Recipients(Run(es).manager, u);
            && ((ExecKey(u.user, ExecOf(u)), ws) in got <==> ExecWanted(es, k, ws, ExecOf(u)))
            && (u.GraphUpdate? ==> ((GraphKey(u.user, u.graphId), ws) in got <==> GraphWanted(es, k, ws, u.graphId)))
  {
    hide Run, OpenedAt, ExecWanted, GraphWanted, ExecKey, GraphKey, Recipients;
    OwnUpdateArrivesIff(es, k, ws, u.user, ExecOf(u), if u.GraphUpdate? then u.graphId else "");
  }

  // ---------------------------------------------------------------- answers

  /** The frame asks for something the server does, with all the data that this needs. */
  ghost predicate IsServed(f: Frame) {
    || (f.Message? && f.kind.Heartbeat?)
    || (exists id :: WantsExec(f, id) || WantsGraph(f, id) || UnwantsExec(f, id))
  }

  predicate IsError(r: Reply) {
    r in {DataMissing, BadFormat, BadData, NotProcessed}
  }

  lemma ServedIff(f: Frame)
    ensures IsServed(f)
       <==> f.Message? &&
            (|| f.kind.Heartbeat?
             || (f.kind.SubscribeGraphExec? && f.data.Fields? && f.data.graphExecId.Some?)
             || (f.kind.SubscribeGraphExecs? && f.data.Fields? && f.data.graphId.Some?)
             || (f.kind.UnsubscribeMethod? && f.data.Fields? && f.data.graphExecId.Some?))
  {
    if f.Message? && f.data.Fields? && f.data.graphExecId.Some? {
      assert f.kind.SubscribeGraphExec? ==> WantsExec(f, f.data.graphExecId.value);
      assert f.kind.UnsubscribeMethod? ==> UnwantsExec(f, f.data.graphExecId.value);
    }
    if f.Message? && f.data.Fields? && f.data.graphId.Some? {
      assert f.kind.SubscribeGraphExecs? ==> WantsGraph(f, f.data.graphId.value);
    }
  }

  /**
   * A frame gets no answer exactly if it is an error message, an answer other than an error exactly if
   * the server does what it asks, and an error otherwise; the error says what is wrong with it.
   */
  lemma AnswerTells(m: Manager, user: string, f: Frame)
    ensures Answer(m, user, f) == None <==> f.Message? && f.kind.ErrorMethod?
    ensures IsServed(f) <==> Answer(m, user, f).Some? && !IsError(Answer(m, user, f).value)
    ensures Answer(m, user, f) == Some(BadFormat) <==> f.Malformed?
    ensures Answer(m, user, f) == Some(DataMissing)
       <==> f.Message? && f.data.Missing? && f.kind in {SubscribeGraphExec, SubscribeGraphExecs, UnsubscribeMethod}
    ensures Answer(m, user, f) == Some(BadData)
       <==> f.Message? && f.data.Fields? && !IsServed(f)
            && f.kind in {SubscribeGraphExec, SubscribeGraphExecs, UnsubscribeMethod}
  {
    ServedIff(f);
    hide IsServed, ExecKey, GraphKey;
  }

  /**
   * In every run an answer tells what the frame changed: after a success the socket is, or is not, among
   * the subscribers of the channel it names; without one all is as it was.
   */
  lemma AnswerIsTrue(es: seq<Event>, k: nat, ws: Socket, user: string, f: Frame, id: string)
    requires OpenedAt(es, k, ws, user)
    ensures var before, after := Run(es).manager, Run(es + [Receives(ws, f)]).manager;
            var answer := Answer(before, user, f);
            && (WantsExec(f, id) ==>
                  && answer == Some(Joined(SubscribeGraphExec, ExecKey(user, id)))
                  && ws in Members(after.subscriptions, ExecKey(user, id)))
            && (WantsGraph(f, id) ==>
                  && answer == Some(Joined(SubscribeGraphExecs, GraphKey(user, id)))
                  && ws in Members(after.subscriptions, GraphKey(user, id)))
            && (UnwantsExec(f, id) ==>
                  && (answer == Some(Left(Some(ExecKey(user, id)))) || (answer == Some(Left(None)) && after == before))
                  && (ExecWanted(es, k, ws, id) ==> answer == Some(Left(Some(ExecKey(user, id)))))
                  && ws !in Members(after.subscriptions, ExecKey(user, id)))
            && (f.Message? && f.kind.Heartbeat? ==> answer == Some(Pong) && after == before)
            && (!IsServed(f) ==> after == before)
  {
    SessionIffOpened(es, ws, user);
    RunGrows(es, Receives(ws, f));
    SubscribedIffWanted(es, k, ws, user, id);
    IndexesFollowTheRun(es);
    ServedIff(f);
    AfterSubscribe(Run(es).manager, ExecKey(user, id), ws, ExecKey(user, id), ws);
    AfterSubscribe(Run(es).manager, GraphKey(user, id), ws, GraphKey(user, id), ws);
    AfterUnsubscribe(Run(es).manager, ExecKey(user, id), ws, ExecKey(user, id), ws);
    hide Run, OpenedAt, ExecWanted, GraphWanted, ExecKey, GraphKey, Subscribed, IsServed, Subscribe, Unsubscribe;
    UnsubscribedMember(Run(es).manager, ExecKey(user, id), ws);
  }

  lemma UnsubscribedMember(m: Manager, key: string, ws: Socket)
    ensures key !in m.subscriptions ==> Unsubscribe(m, key, ws) == m && ws !in Members(m.subscriptions, key)
  {
  }

  /**
   * In every run an unsubscribe frame leaves its channel in the map exactly if somebody is still
   * subscribed, while closing a connection leaves all channels in it, also those without subscribers.
   */
  lemma ChannelsLeft(es: seq<Event>, ws: Socket, user: string, f: Frame, id: string)
    requires ws in Run(es).sessions && Run(es).sessions[ws] == user && UnwantsExec(f, id)
    ensures var after := Run(es + [Receives(ws, f)]).manager.subscriptions;
            ExecKey(user, id) in after <==> Members(after, ExecKey(user, id)) != {}
    ensures Run(es + [Close(ws)]).manager.subscriptions.Keys == Run(es).manager.subscriptions.Keys
  {
    RunGrows(es, Receives(ws, f));
    RunGrows(es, Close(ws));
    hide Run, ExecKey;
  }
}
