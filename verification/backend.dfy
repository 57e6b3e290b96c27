/** The lottery backend's global state and its transitions: the draw
    trigger, the reset, the draw itself, mesh packet handling, and the
    status snapshot the browser polls.

    The watermark `lastUpdate` is a wall-clock timestamp in the backend
    and is only ever compared for equality; here every bump moves it to a
    fresh value, `lastUpdate + 1`. */
module Backend {
  import opened Wire
  import opened Text
  import opened Draw

  /** The text a mesh user sends to enter the lottery. */
  const LotteryKeyword: string := "我要抽奖"

  /** The prize table, in draw order: first, second and third prize. */
  const PrizeLevels: seq<Prize> := [Prize("一等奖", 1), Prize("二等奖", 3), Prize("三等奖", 5)]

  /** The process-wide lottery state. `results` is `None` until a draw
      completes; `nodeNames` maps node ids to their announced long names. */
  datatype Server = Server(
    participants: set<NodeId>,
    results: Option<seq<Award>>,
    inProgress: bool,
    nodeNames: map<NodeId, string>,
    lastUpdate: nat)

  /** The state at start-up, `t0` being the start time: consistent, with
      nobody registered, so a draw request is refused. */
  function Boot(t0: nat): (s: Server)
    ensures Consistent(s) && s.lastUpdate == t0 && s.nodeNames == map[]
    ensures s.results == None && !s.inProgress
    ensures s.participants == {} && TriggerDraw(s).reply == Rejected(NoParticipants)
  {
    Server({}, None, false, map[], t0)
  }

  /** Why a draw request is refused (both answered with HTTP 400). */
  datatype TriggerError = AlreadyInProgress | NoParticipants

  datatype Reply = Accepted | Rejected(error: TriggerError)

  /** A transition's new state together with the reply sent to the caller. */
  datatype Answer = Answer(state: Server, reply: Reply)

  /** Participants, node names and the watermark agree. */
  predicate SameRegistry(s: Server, t: Server) {
    t.participants == s.participants && t.nodeNames == s.nodeNames && t.lastUpdate == s.lastUpdate
  }

  /** The draw request. A draw already running is reported first, then an
      empty participant set; either refusal leaves the state alone. An
      accepted request marks a draw as running and discards old results,
      touching nothing else; the draw itself is `RunLottery`, a separate
      step. */
  function TriggerDraw(s: Server): (a: Answer)
    ensures s.inProgress ==> a == Answer(s, Rejected(AlreadyInProgress))
    ensures !s.inProgress && s.participants == {} ==> a == Answer(s, Rejected(NoParticipants))
    ensures a.reply == Accepted <==> !s.inProgress && s.participants != {}
    ensures a.reply == Accepted ==>
      a.state.inProgress && a.state.results == None && SameRegistry(s, a.state)
  {
    if s.inProgress then Answer(s, Rejected(AlreadyInProgress))
    else if s.participants == {} then Answer(s, Rejected(NoParticipants))
    else Answer(s.(inProgress := true, results := None), Accepted)
  }

  /** The reset: the round's participants and results are dropped and no
      draw is marked running. Node names and the watermark are kept. */
  function Reset(s: Server): (t: Server)
    ensures t.participants == {} && t.results == None && !t.inProgress
    ensures t.nodeNames == s.nodeNames && t.lastUpdate == s.lastUpdate
  {
    s.(participants := {}, results := None, inProgress := false)
  }

  /** The draw, run as one atomic step for any fair picker. With nobody
      registered it only clears the running flag. Otherwise it publishes the
      allocation over all participants, clears the running flag and the
      participant set, and bumps the watermark. */
  function RunLottery(s: Server, pick: Picker): (t: Server)
    requires FairPicker(pick)
    ensures s.participants == {} ==> t == s.(inProgress := false)
    ensures s.participants != {} ==>
      && t.results.Some?
      && !t.inProgress
      && t.participants == {}
      && t.lastUpdate == s.lastUpdate + 1
      && t.nodeNames == s.nodeNames
      && |t.results.value| <= |PrizeLevels|
      && (forall i | 0 <= i < |t.results.value| :: t.results.value[i].prize == PrizeLevels[i].name)
      && TierCounts(PrizeLevels, |s.participants|, t.results.value)
      && Distinct(Winners(t.results.value))
      && Elems(Winners(t.results.value)) <= s.participants
      && NamedBy(t.results.value, s.nodeNames)
  {
    if s.participants == {} then s.(inProgress := false)
    else
      var r := Allocate(PrizeLevels, s.participants, s.nodeNames, pick);
      AllocateCounts(PrizeLevels, s.participants, s.nodeNames, pick);
      AllocateNames(PrizeLevels, s.participants, s.nodeNames, pick);
      s.(results := Some(r), inProgress := false, participants := {}, lastUpdate := s.lastUpdate + 1)
  }

  // ---------------------------------------------------------------------
  // Mesh packets

  /** The application port of a decoded packet; anything else, or a missing
      port, is `OtherPort`. */
  datatype Port = TextMessageApp | NodeInfoApp | OtherPort

  /** A node-info user record; a missing or null field reads as "". */
  datatype User = User(id: NodeId, longName: string)

  /** The decoded payload: its port, its text ("" when absent) and its user
      record (`None` when absent or empty). */
  datatype Decoded = Decoded(port: Port, text: string, user: Option<User>)

  /** A received packet: the sender id ("" when absent) and the payload. */
  datatype Packet = Packet(fromId: NodeId, decoded: Option<Decoded>)

  /** The packet is a text message from a known sender that contains the
      keyword anywhere in it. */
  predicate AsksToJoin(p: Packet) {
    p.fromId != "" && p.decoded.Some? && p.decoded.value.port == TextMessageApp
    && Contains(p.decoded.value.text, LotteryKeyword)
  }

  /** The packet carries a usable node-info record: it is not a text message,
      it is node-info or has a user record, and both id and long name are
      non-empty. */
  predicate AnnouncesName(p: Packet) {
    p.fromId != "" && p.decoded.Some? && p.decoded.value.port != TextMessageApp
    && p.decoded.value.user.Some?
    && p.decoded.value.user.value.id != "" && p.decoded.value.user.value.longName != ""
  }

  /** Packet handling. A keyword message from an unregistered sender
      registers exactly that sender. A usable node-info record sets that
      node's name. Nothing else changes, and the watermark moves exactly
      when the participant set or the name map does. */
  function Receive(s: Server, p: Packet): (t: Server)
    ensures t.inProgress == s.inProgress && t.results == s.results
    ensures t.participants == if AsksToJoin(p) then s.participants + {p.fromId} else s.participants
    ensures AnnouncesName(p) ==>
      t.nodeNames == s.nodeNames[p.decoded.value.user.value.id := p.decoded.value.user.value.longName]
    ensures !AnnouncesName(p) ==> t.nodeNames == s.nodeNames
    ensures t.lastUpdate == s.lastUpdate || t.lastUpdate == s.lastUpdate + 1
    ensures t.lastUpdate != s.lastUpdate <==> t.participants != s.participants || t.nodeNames != s.nodeNames
  {
    if p.fromId == "" || p.decoded.None? then s
    else
      var d := p.decoded.value;
      if d.port == TextMessageApp then
        if Contains(d.text, LotteryKeyword) && p.fromId !in s.participants then
          s.(participants := s.participants + {p.fromId}, lastUpdate := s.lastUpdate + 1)
        else s
      else if d.port == NodeInfoApp || d.user.Some? then
        match d.user
        case Some(u) =>
          if u.id != "" && u.longName != "" && (u.id !in s.nodeNames || s.nodeNames[u.id] != u.longName) then
            s.(nodeNames := s.nodeNames[u.id := u.longName], lastUpdate := s.lastUpdate + 1)
          else s
        case None => s
      else s
  }

  /** Hearing the same packet twice has the effect of hearing it once:
      registration and name announcements are idempotent, so the watermark
      does not move the second time. */
  lemma ReceiveIdempotent(s: Server, p: Packet)
    ensures Receive(Receive(s, p), p) == Receive(s, p)
  {
    var t := Receive(s, p);
    if AsksToJoin(p) {
      assert p.fromId in t.participants;
    }
  }

  /** A name announcement is what the draw and the status endpoint show
      afterwards: the announced node is shown under its long name, and
      every other node keeps the name it had. */
  lemma AnnouncementRenames(s: Server, p: Packet, id: NodeId)
    requires AnnouncesName(p)
    ensures var u := p.decoded.value.user.value;
      DisplayName(Receive(s, p).nodeNames, id) == if id == u.id then u.longName else DisplayName(s.nodeNames, id)
  {
  }

  // ---------------------------------------------------------------------
  // Status snapshot

  /** The body of the status endpoint. */
  datatype Snapshot = Snapshot(
    participants: seq<Participant>,
    participantCount: nat,
    keyword: string,
    prizes: seq<Prize>,
    inProgress: bool,
    results: Option<seq<Award>>,
    lastUpdate: nat)

  /** The snapshot of `s` when its participant set is iterated in `order`:
      every participant appears once, under its display name, and the
      count agrees with the list. */
  function Describe(s: Server, order: seq<NodeId>): (snap: Snapshot)
    requires Enumerates(order, s.participants)
    ensures Ids(snap.participants) == order
    ensures forall i | 0 <= i < |order| :: snap.participants[i].name == DisplayName(s.nodeNames, order[i])
    ensures snap.participantCount == |s.participants| == |snap.participants|
    ensures snap.keyword == LotteryKeyword && snap.prizes == PrizeLevels
    ensures snap.inProgress == s.inProgress && snap.results == s.results && snap.lastUpdate == s.lastUpdate
  {
    DistinctCardinality(order);
    Snapshot(Named(order, s.nodeNames), |s.participants|, LotteryKeyword, PrizeLevels,
             s.inProgress, s.results, s.lastUpdate)
  }

  /** The status endpoint: iterates the participant set in some order and
      describes the state in that order. */
  method Status(s: Server) returns (snap: Snapshot)
    ensures Enumerates(Ids(snap.participants), s.participants)
    ensures snap == Describe(s, Ids(snap.participants))
  {
    var order: seq<NodeId> := [];
    var rest := s.participants;
    while rest != {}
      invariant rest <= s.participants
      invariant Distinct(order)
      invariant Elems(order) == s.participants - rest
      decreases |rest|
    {
      var id :| id in rest;
      assert Elems(order + [id]) == Elems(order) + {id};
      order := order + [id];
      rest := rest - {id};
    }
    snap := Describe(s, order);
  }

  // ---------------------------------------------------------------------
  // Invariant

  /** Published results fit the prize table: a prefix of its tiers, none
      over its nominal count, and no node winning twice. */
  ghost predicate WellFormedResults(r: seq<Award>) {
    && |r| <= |PrizeLevels|
    && (forall i | 0 <= i < |r| :: r[i].prize == PrizeLevels[i].name && |r[i].winners| <= PrizeLevels[i].count)
    && Distinct(Winners(r))
  }

  /** While a draw runs there are no results, and any results are well
      formed. */
  ghost predicate Consistent(s: Server) {
    && (s.inProgress ==> s.results == None)
    && (s.results.Some? ==> WellFormedResults(s.results.value))
  }

  /** Every transition keeps the state consistent. */
  lemma ConsistencyPreserved(s: Server, pick: Picker, p: Packet)
    requires Consistent(s) && FairPicker(pick)
    ensures Consistent(TriggerDraw(s).state)
    ensures Consistent(Reset(s))
    ensures Consistent(RunLottery(s, pick))
    ensures Consistent(Receive(s, p))
  {
    var t := RunLottery(s, pick);
    if s.participants != {} {
      var r := t.results.value;
      forall i | 0 <= i < |r| ensures |r[i].winners| <= PrizeLevels[i].count {
        assert |r[i].winners| == Min(PrizeLevels[i].count, |s.participants| - Drawn(r[..i]));
      }
    }
  }

  /** An accepted trigger followed by the draw hands out prizes only to the
      participants registered when the trigger was accepted, no more of
      them than the table offers in all. */
  lemma TriggerThenDraw(s: Server, pick: Picker)
    requires FairPicker(pick)
    requires TriggerDraw(s).reply == Accepted
    ensures var t := RunLottery(TriggerDraw(s).state, pick);
      && t.results.Some?
      && Elems(Winners(t.results.value)) <= s.participants
      && Drawn(t.results.value) <= Min(SumCounts(PrizeLevels), |s.participants|)
  {
    AllocateTotal(PrizeLevels, s.participants, s.nodeNames, pick);
  }
}
