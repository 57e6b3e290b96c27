/** The lottery page's client state: how a polled status body is applied,
    the two buttons' optimistic actions, and which panels the page shows.

    Every network exchange is one atomic step whose outcome is a parameter:
    a status fetch either yields a decoded body or fails (a non-2xx status
    or a thrown fetch), and a POST either succeeds or fails. */
module Poller {
  import opened Wire

  /** The keyword shown until the backend reports its own. */
  const DefaultKeyword: string := "I want to join lottery"

  datatype Connection = Connecting | Connected | Disconnected

  /** A status body as the page reads it. A field that is missing or null
      reads as `None`; the backend's watermark is only compared for
      equality. */
  datatype StatusData = StatusData(
    participants: Option<seq<Participant>>,
    participantCount: Option<int>,
    keyword: Option<string>,
    prizes: Option<seq<Prize>>,
    inProgress: bool,
    results: Option<seq<Award>>,
    lastUpdate: int)

  /** The outcome of one status fetch. */
  datatype Response = Received(data: StatusData) | Failed

  /** The page's state. `lastUpdate` is the watermark of the last applied
      body; `isPolling` is set while a fetch is outstanding. */
  datatype View = View(
    participants: seq<Participant>,
    participantCount: int,
    keyword: string,
    prizes: seq<Prize>,
    isDrawing: bool,
    winners: Option<seq<Award>>,
    connection: Connection,
    mounted: bool,
    lastUpdate: int,
    isPolling: bool)

  /** The page before its first effect runs: still connecting, with the
      draw button disabled, and deaf to status fetches until mounted. */
  function Initial(): (v: View)
    ensures !v.mounted && v.connection == Connecting && !TriggerEnabled(v)
    ensures v.lastUpdate == 0 && v.winners == None && !v.isDrawing
    ensures v.participants == [] && v.participantCount == 0 && v.keyword == DefaultKeyword && v.prizes == []
    ensures forall r: Response :: ApplyFetch(v, r) == v
  {
    View([], 0, DefaultKeyword, [], false, None, Connecting, false, 0, false)
  }

  /** The mount effect. Nothing else changes, and a freshly mounted page
      shows its home panel with the draw button disabled. */
  function Mount(v: View): (m: View)
    ensures m.mounted && m.(mounted := v.mounted) == v
    ensures v == Initial() ==> ShowsMainPanel(m) && !TriggerEnabled(m)
  {
    v.(mounted := true)
  }

  // ---------------------------------------------------------------------
  // Applying a status fetch

  /** `w` equals `v` apart from the polling flag, which is clear. */
  predicate Settled(v: View, w: View) {
    w == v.(isPolling := false)
  }

  /** A body describes a finished draw: results are present and no draw is
      running. */
  predicate CompletedDraw(d: StatusData) {
    d.results.Some? && !d.inProgress
  }

  /** `w` shows what `d` reports, with the page's fallbacks for fields that
      are missing or falsy: no participants, a count of 0, the default
      keyword, no prizes. */
  predicate Mirrors(w: View, d: StatusData) {
    && w.participants == d.participants.GetOr([])
    && w.participantCount == d.participantCount.GetOr(0)
    && w.keyword == (if d.keyword == None || d.keyword == Some("") then DefaultKeyword else d.keyword.value)
    && w.prizes == d.prizes.GetOr([])
    && w.isDrawing == d.inProgress
    && w.lastUpdate == d.lastUpdate
  }

  /** One status fetch, from the polling flag's rise to its fall.
      - before mount nothing happens;
      - a failed fetch marks the page disconnected and changes nothing else;
      - a body with the watermark already applied changes nothing, not even
        the connection status;
      - a body with a new watermark is mirrored, marks the page connected,
        and replaces the winners only for a completed draw; otherwise the
        winners shown before are kept. */
  function ApplyFetch(v: View, r: Response): (w: View)
    ensures !v.mounted ==> w == v
    ensures v.mounted && r.Failed? ==> Settled(v.(connection := Disconnected), w)
    ensures v.mounted && r.Received? && r.data.lastUpdate == v.lastUpdate ==> Settled(v, w)
    ensures v.mounted && r.Received? && r.data.lastUpdate != v.lastUpdate ==>
      && Mirrors(w, r.data)
      && w.connection == Connected
      && w.winners == (if CompletedDraw(r.data) then r.data.results else v.winners)
      && w.mounted && !w.isPolling
  {
    if !v.mounted then v
    else
      match r
      case Failed => v.(connection := Disconnected, isPolling := false)
      case Received(d) =>
        if d.lastUpdate == v.lastUpdate then v.(isPolling := false)
        else
          v.(participants := d.participants.GetOr([]),
             participantCount := d.participantCount.GetOr(0),
             keyword := if d.keyword == None || d.keyword == Some("") then DefaultKeyword else d.keyword.value,
             prizes := d.prizes.GetOr([]),
             isDrawing := d.inProgress,
             winners := if d.results.Some? && !d.inProgress then d.results else v.winners,
             lastUpdate := d.lastUpdate,
             connection := Connected,
             isPolling := false)
  }

  /** Applying the same fetch outcome twice is the same as applying it once:
      the second copy of a body carries the watermark the first installed. */
  lemma ApplyFetchIdempotent(v: View, r: Response)
    ensures ApplyFetch(ApplyFetch(v, r), r) == ApplyFetch(v, r)
  {
  }

  /** Winners are a one-way latch under polling: no fetch clears them, and
      they change only when a new-watermark body reports a completed draw. */
  lemma WinnersLatch(v: View, r: Response)
    ensures v.winners.Some? ==> ApplyFetch(v, r).winners.Some?
    ensures ApplyFetch(v, r).winners != v.winners ==>
      && v.mounted && r.Received? && r.data.lastUpdate != v.lastUpdate && CompletedDraw(r.data)
      && ApplyFetch(v, r).winners == r.data.results
  {
  }

  // ---------------------------------------------------------------------
  // What the page shows

  // Before mount the page renders only a loading placeholder.

  /** The drawing animation: shown after mount exactly while the drawing
      flag is set, whatever winners are latched. */
  predicate ShowsAnimation(v: View): (b: bool)
    ensures b ==> v.mounted
    ensures v.mounted ==> (b <==> v.isDrawing)
  {
    v.mounted && v.isDrawing
  }

  /** The results panel: shown after mount for any latched winners object,
      even an empty one, whether or not a draw is animating. */
  predicate ShowsResults(v: View): (b: bool)
    ensures b ==> v.mounted
    ensures v.mounted ==> (b <==> v.winners.Some?)
  {
    v.mounted && v.winners.Some?
  }

  /** The home panel (statistics, prize settings, the draw button and the
      participant list): once mounted, it is shown exactly when neither the
      animation nor the results are. */
  predicate ShowsMainPanel(v: View): (b: bool)
    ensures b <==> v.mounted && !ShowsAnimation(v) && !ShowsResults(v)
  {
    v.mounted && !v.isDrawing && v.winners.None?
  }

  /** The draw button is clickable: it needs a connected page with
      participants, and a click on it always sends the draw request. */
  predicate TriggerEnabled(v: View): (b: bool)
    ensures b ==> v.connection == Connected && TriggerLottery(v).request == Some(TriggerEndpoint)
    ensures !b ==> v.participantCount == 0 || v.connection != Connected
  {
    v.participantCount != 0 && v.connection == Connected
  }

  /** A stale latch: results latched from an earlier draw stay on screen,
      next to the animation, when a later body reports a new draw running. */
  lemma StaleWinnersShownWhileDrawing(v: View, d: StatusData)
    requires v.mounted && v.winners.Some?
    requires d.inProgress && d.lastUpdate != v.lastUpdate
    ensures var w := ApplyFetch(v, Received(d));
      ShowsAnimation(w) && ShowsResults(w) && w.winners == v.winners
  {
  }

  // ---------------------------------------------------------------------
  // Actions

  datatype Endpoint = StatusEndpoint | TriggerEndpoint | ResetEndpoint

  /** An action's synchronous effect: the view it leaves and the request it
      sends, if any. */
  datatype Step = Step(view: View, request: Option<Endpoint>)

  /** The draw button. With no participants it does nothing and sends
      nothing; otherwise it shows the animation at once, before the draw
      request goes out. */
  function TriggerLottery(v: View): (st: Step)
    ensures v.participantCount == 0 ==> st == Step(v, None)
    ensures v.participantCount != 0 ==>
      st.request == Some(TriggerEndpoint) && st.view.isDrawing && st.view.(isDrawing := v.isDrawing) == v
  {
    if v.participantCount == 0 then Step(v, None)
    else Step(v.(isDrawing := true), Some(TriggerEndpoint))
  }

  /** The draw request settles: success leaves the optimistic animation for
      polling to confirm; any failure withdraws it and nothing else. */
  function TriggerSettled(v: View, ok: bool): (w: View)
    ensures ok ==> w == v
    ensures !ok ==> !w.isDrawing && w.(isDrawing := v.isDrawing) == v
  {
    if ok then v else v.(isDrawing := false)
  }

  /** A failed draw request returns the page to where it was before the
      click, provided no animation was showing then. */
  lemma TriggerFailureReverts(v: View)
    requires !v.isDrawing
    ensures TriggerSettled(TriggerLottery(v).view, false) == v
  {
  }

  /** An enabled draw button always sends the draw request. */
  lemma EnabledTriggerSends(v: View)
    requires TriggerEnabled(v)
    ensures TriggerLottery(v).request == Some(TriggerEndpoint)
    ensures ShowsAnimation(TriggerLottery(v).view) <==> v.mounted
  {
  }

  /** The reset request settles: a failure changes nothing; a success
      clears the winners and the animation and then asks for a status
      fetch, so the clearing happens before the fetch is applied. */
  function ResetSettled(v: View, ok: bool): (st: Step)
    ensures !ok ==> st == Step(v, None)
    ensures ok ==> st.request == Some(StatusEndpoint)
    ensures ok ==> st.view.winners == None && !st.view.isDrawing
    ensures ok ==> st.view.(winners := v.winners, isDrawing := v.isDrawing) == v
  {
    if ok then Step(v.(winners := None, isDrawing := false), Some(StatusEndpoint)) else Step(v, None)
  }

  /** A successful reset brings the mounted page back to its home panel, and
      the follow-up fetch keeps it there unless the body it brings is new
      and reports a draw running or finished. */
  lemma ResetReturnsHome(v: View, r: Response)
    requires v.mounted
    ensures ShowsMainPanel(ResetSettled(v, true).view)
    ensures var w := ApplyFetch(ResetSettled(v, true).view, r);
      !ShowsMainPanel(w) ==>
        r.Received? && r.data.lastUpdate != v.lastUpdate && (r.data.inProgress || r.data.results.Some?)
  {
  }

  // ---------------------------------------------------------------------
  // Connection recovery

  /** As written, a successful fetch whose body carries the watermark
      already applied does not mark the page connected. After a transient
      failure the page therefore stays disconnected, with the draw button
      disabled, until the backend's state next changes. */
  lemma StaysDisconnectedOnUnchangedSnapshot()
    ensures var v := View([], 3, "k", [], false, None, Disconnected, true, 7, false);
      var d := StatusData(None, Some(3), Some("k"), None, false, None, 7);
      var w := ApplyFetch(v, Received(d));
      w.connection == Disconnected && !TriggerEnabled(w)
  {
  }

  /** The fetch as evidently intended: any successful fetch marks the page
      connected, whatever its body's watermark. */
  function ApplyFetchReconnecting(v: View, r: Response): (w: View)
    ensures v.mounted && r.Received? ==> w.connection == Connected
    ensures w.(connection := ApplyFetch(v, r).connection) == ApplyFetch(v, r)
    ensures !(v.mounted && r.Received?) ==> w == ApplyFetch(v, r)
  {
    var w := ApplyFetch(v, r);
    if v.mounted && r.Received? then w.(connection := Connected) else w
  }

  /** With the intended fetch, one successful poll after any failure
      re-enables the draw button whenever there are participants. */
  lemma ReconnectingRestoresConnection(v: View, d: StatusData)
    requires v.mounted
    ensures var w := ApplyFetchReconnecting(ApplyFetchReconnecting(v, Failed), Received(d));
      w.connection == Connected && (TriggerEnabled(w) <==> w.participantCount != 0)
  {
  }
}
