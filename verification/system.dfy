/** The backend and the page together: the status body the backend builds
    is what the page decodes, so properties of the pair can be stated end
    to end. */
module System {
  import opened Wire
  import opened Text
  import opened Draw
  import opened Json
  import Backend
  import Poller
  import Results

  /** The page's reading of a status body the backend built. The body is
      serialised with sorted keys, so the prize table and the results
      object arrive with the same entries, ordered by name; every other
      field arrives as sent. */
  function Decode(snap: Backend.Snapshot): (d: Poller.StatusData)
    ensures d.prizes.Some? && multiset(d.prizes.value) == multiset(snap.prizes)
    ensures d.prizes.Some? && KeySorted(d.prizes.value, PrizeName)
    ensures d.results.Some? <==> snap.results.Some?
    ensures snap.results.Some? ==>
      multiset(d.results.value) == multiset(snap.results.value) && KeySorted(d.results.value, AwardName)
    ensures d.participants == Some(snap.participants) && d.participantCount == Some(snap.participantCount as int)
    ensures d.keyword == Some(snap.keyword) && d.inProgress == snap.inProgress && d.lastUpdate == snap.lastUpdate as int
  {
    var results := if snap.results.Some? then Some(SortByKey(snap.results.value, AwardName)) else None;
    Poller.StatusData(Some(snap.participants), Some(snap.participantCount), Some(snap.keyword),
                      Some(SortByKey(snap.prizes, PrizeName)), snap.inProgress, results, snap.lastUpdate)
  }

  /** The backend's prize table reaches the home panel as first, third and
      second prize: "三" (U+4E09) sorts before "二" (U+4E8C). */
  lemma PrizeTableOnPage(snap: Backend.Snapshot)
    requires snap.prizes == Backend.PrizeLevels
    ensures Decode(snap).prizes == Some([Prize("一等奖", 1), Prize("三等奖", 5), Prize("二等奖", 3)])
  {
    var t := Backend.PrizeLevels;
    assert NameLe(t[0].name, t[2].name) && !NameLe(t[1].name, t[2].name);
    SortFirstThirdSecond(t[0], t[1], t[2], PrizeName);
  }

  /** A draw that served all three tiers reaches the results panel in the
      same wire order: the first-prize card, then the third, then the
      second. */
  lemma FullDrawOnPage(snap: Backend.Snapshot)
    requires snap.results.Some? && |snap.results.value| == 3
    requires forall i | 0 <= i < 3 :: snap.results.value[i].prize == Backend.PrizeLevels[i].name
    ensures var r := snap.results.value;
      Decode(snap).results == Some([r[0], r[2], r[1]])
  {
    var r := snap.results.value;
    var t := Backend.PrizeLevels;
    assert NameLe(t[0].name, t[2].name) && !NameLe(t[1].name, t[2].name);
    assert r == [r[0], r[1], r[2]];
    SortFirstThirdSecond(r[0], r[1], r[2], AwardName);
  }

  /** The page has applied the backend's current watermark. */
  predicate InSync(v: Poller.View, s: Backend.Server) {
    v.mounted && v.lastUpdate == s.lastUpdate as int
  }

  /** A completed draw reaches every page that was in sync before it: the
      next poll latches the published results, entry for entry in name
      order, stops the
      animation, shows the results panel with one card per drawn tier, and
      reports no participants left. */
  lemma CompletedDrawReachesPage(s: Backend.Server, pick: Picker, v: Poller.View)
    requires FairPicker(pick) && s.participants != {}
    requires InSync(v, s)
    ensures var t := Backend.RunLottery(s, pick);
      var w := Poller.ApplyFetch(v, Poller.Received(Decode(Backend.Describe(t, []))));
      && w.winners.Some? && multiset(w.winners.value) == multiset(t.results.value)
      && KeySorted(w.winners.value, AwardName)
      && !w.isDrawing && w.connection == Poller.Connected
      && Poller.ShowsResults(w) && !Poller.ShowsAnimation(w) && !Poller.ShowsMainPanel(w)
      && |Results.Cards(w.winners.value)| == |t.results.value|
      && w.participantCount == 0 && w.participants == []
  {
    var t := Backend.RunLottery(s, pick);
    assert Enumerates([], t.participants);
  }

  /** An accepted draw request does not move the watermark, so a page that
      was in sync, other than the one whose click set its own animation,
      ignores the body announcing the running draw. */
  lemma TriggerUnseenByPage(s: Backend.Server, order: seq<NodeId>, v: Poller.View)
    requires Backend.TriggerDraw(s).reply == Backend.Accepted
    requires Enumerates(order, s.participants)
    requires InSync(v, s)
    ensures var t := Backend.TriggerDraw(s).state;
      t.inProgress && Poller.ApplyFetch(v, Poller.Received(Decode(Backend.Describe(t, order)))) == v.(isPolling := false)
  {
  }

  /** Registration is not blocked while a draw runs, so a new keyword
      message moves the watermark and a page in sync then applies a body
      reporting the running draw: its animation starts. */
  lemma RunningDrawSeenAfterRegistration(s: Backend.Server, p: Backend.Packet, order: seq<NodeId>, v: Poller.View)
    requires Backend.TriggerDraw(s).reply == Backend.Accepted
    requires Backend.AsksToJoin(p) && p.fromId !in s.participants
    requires InSync(v, s) && !v.isDrawing
    requires Enumerates(order, Backend.Receive(Backend.TriggerDraw(s).state, p).participants)
    ensures var t := Backend.Receive(Backend.TriggerDraw(s).state, p);
      var w := Poller.ApplyFetch(v, Poller.Received(Decode(Backend.Describe(t, order))));
      !Poller.ShowsAnimation(v) && Poller.ShowsAnimation(w) && w.participantCount == |s.participants| + 1
  {
  }

  /** As written, the reset does not move the watermark either. A page that
      showed registrations made after the last draw goes back to its home
      panel, and the reset's follow-up poll leaves it listing those
      participants, with the draw button enabled, although the backend has
      dropped them and would refuse a draw. */
  lemma ResetUnseenByPage(s: Backend.Server, v: Poller.View)
    requires s.participants != {} && !s.inProgress
    requires InSync(v, s) && v.winners.Some? && v.participantCount == |s.participants|
    requires v.connection == Poller.Connected
    ensures var t := Backend.Reset(s);
      var u := Poller.ResetSettled(v, true).view;
      var w := Poller.ApplyFetch(u, Poller.Received(Decode(Backend.Describe(t, []))));
      && Poller.ShowsMainPanel(w) && Poller.TriggerEnabled(w)
      && w.participantCount == |s.participants| > 0
      && Backend.TriggerDraw(t).reply == Backend.Rejected(Backend.NoParticipants)
  {
    assert Enumerates([], Backend.Reset(s).participants);
  }

  /** The reset as evidently intended: as before, and the watermark moves so
      that pollers notice. */
  function ResetAnnounced(s: Backend.Server): (t: Backend.Server)
    ensures t.participants == {} && t.results == None && !t.inProgress
    ensures t.nodeNames == s.nodeNames && t.lastUpdate != s.lastUpdate
  {
    Backend.Reset(s).(lastUpdate := s.lastUpdate + 1)
  }

  /** With the announced reset, the follow-up poll of any page that was in
      sync shows the home panel with no participants and the draw button
      disabled, matching the backend. */
  lemma AnnouncedResetReachesPage(s: Backend.Server, v: Poller.View)
    requires InSync(v, s)
    ensures var t := ResetAnnounced(s);
      var u := Poller.ResetSettled(v, true).view;
      var w := Poller.ApplyFetch(u, Poller.Received(Decode(Backend.Describe(t, []))));
      && Poller.ShowsMainPanel(w) && !Poller.TriggerEnabled(w)
      && w.participantCount == 0 && w.participants == []
  {
    assert Enumerates([], ResetAnnounced(s).participants);
  }

  /** The backend's own prize names fall into the first, second and third
      tiers respectively, so its results get crown, medal and award. */
  lemma PrizeTableTiers()
    ensures |Backend.PrizeLevels| == 3
    ensures Results.Classify(Backend.PrizeLevels[0].name) == Results.FirstTier
    ensures Results.Classify(Backend.PrizeLevels[1].name) == Results.SecondTier
    ensures Results.Classify(Backend.PrizeLevels[2].name) == Results.ThirdTier
  {
    var first, second, third := Backend.PrizeLevels[0].name, Backend.PrizeLevels[1].name, Backend.PrizeLevels[2].name;
    assert IsPrefix("一等奖", first) && IsPrefix("二等奖", second) && IsPrefix("三等奖", third);
    assert '一' !in second && '一' !in third && '二' !in third;
    assert 'F' !in second && 'F' !in third && 'S' !in third;
    MissingCharNotContained(second, "一等奖", '一');
    MissingCharNotContained(second, "First Prize", 'F');
    MissingCharNotContained(third, "一等奖", '一');
    MissingCharNotContained(third, "First Prize", 'F');
    MissingCharNotContained(third, "二等奖", '二');
    MissingCharNotContained(third, "Second Prize", 'S');
  }
}
