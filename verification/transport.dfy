/**
 The file player: a reader source opened from a file feeds a transport
 source, and a four-state machine driven by the play and stop buttons and by
 the transport's change messages decides which buttons are enabled and when
 the transport starts, stops and rewinds.

 The transport is abstracted to a playing flag and a read position; the
 buttons to their enabled flags; the reader source to an opaque value `S`.
 */
module Transport {
  import opened Wrappers

  /** The four states of the player. */
  datatype TransportState = Stopped | Starting | Playing | Stopping

  /** The transport source, as far as the state machine uses it. */
  datatype TransportSource = TransportSource(playing: bool, position: int)

  /** The object that sent a change message to the player. */
  datatype Broadcaster = TheTransport | SomeOtherBroadcaster

  /** What the audio callback does with the block it is asked to fill. */
  datatype BlockAction = ClearBlock | ForwardToTransport

  /** The player component's state. */
  datatype Player<S> = Player(
    state: TransportState,
    playEnabled: bool,
    stopEnabled: bool,
    transport: TransportSource,
    readerSource: Option<S>)

  /** The component as constructed: Stopped, both buttons disabled, no
      reader source, an idle transport at position 0. */
  function Initial<S>(): (p: Player<S>)
    ensures p.state == Stopped && !p.playEnabled && !p.stopEnabled
    ensures p.readerSource.None? && !p.transport.playing && p.transport.position == 0
  {
    Player(Stopped, false, false, TransportSource(false, 0), None)
  }

  /** A state change. Asking for the current state does nothing at all;
      otherwise the new state's entry action runs: entering Stopped
      disables stop, enables play and rewinds the transport; entering
      Starting disables play and starts the transport; entering Playing
      enables stop; entering Stopping stops the transport. */
  function ChangeState<S>(p: Player<S>, newState: TransportState): (r: Player<S>)
    ensures r.state == newState && r.readerSource == p.readerSource
    ensures p.state == newState ==> r == p
    ensures p.state != newState && newState == Stopped ==>
              !r.stopEnabled && r.playEnabled && r.transport == p.transport.(position := 0)
    ensures p.state != newState && newState == Starting ==>
              !r.playEnabled && r.stopEnabled == p.stopEnabled && r.transport == p.transport.(playing := true)
    ensures p.state != newState && newState == Playing ==>
              r.stopEnabled && r.playEnabled == p.playEnabled && r.transport == p.transport
    ensures p.state != newState && newState == Stopping ==>
              r.playEnabled == p.playEnabled && r.stopEnabled == p.stopEnabled
              && r.transport == p.transport.(playing := false)
  {
    if p.state == newState then p
    else
      var q := p.(state := newState);
      match newState
      case Stopped => q.(stopEnabled := false, playEnabled := true,
                         transport := q.transport.(position := 0))
      case Starting => q.(playEnabled := false, transport := q.transport.(playing := true))
      case Playing => q.(stopEnabled := true)
      case Stopping => q.(transport := q.transport.(playing := false))
  }

  /** Changing to a state twice is changing to it once. */
  lemma ChangeStateIdempotent<S>(p: Player<S>, s: TransportState)
    ensures ChangeState(ChangeState(p, s), s) == ChangeState(p, s)
  {
  }

  /** The play button asks for Starting. */
  function PlayButtonClicked<S>(p: Player<S>): (r: Player<S>)
    ensures r.state == Starting
    ensures p.state != Starting ==> r.transport.playing && !r.playEnabled
    ensures p.state == Starting ==> r == p
    ensures r.stopEnabled == p.stopEnabled && r.transport.position == p.transport.position
    ensures r.readerSource == p.readerSource
  {
    ChangeState(p, Starting)
  }

  /** The stop button asks for Stopping. */
  function StopButtonClicked<S>(p: Player<S>): (r: Player<S>)
    ensures r.state == Stopping
    ensures !r.transport.playing || p.state == Stopping
    ensures r.playEnabled == p.playEnabled && r.stopEnabled == p.stopEnabled
    ensures r.transport.position == p.transport.position && r.readerSource == p.readerSource
    ensures p.state == Stopping ==> r == p
  {
    ChangeState(p, Stopping)
  }

  /** A change message. One from the transport moves the player to Playing
      when the transport is playing and to Stopped otherwise; a message from
      any other broadcaster is ignored. */
  function ChangeListenerCallback<S>(p: Player<S>, source: Broadcaster): (r: Player<S>)
    ensures source == SomeOtherBroadcaster ==> r == p
    ensures source == TheTransport && p.transport.playing ==>
              && r.state == Playing && r.playEnabled == p.playEnabled && r.transport == p.transport
              && (p.state == Playing ==> r == p)
              && (p.state != Playing ==> r.stopEnabled)
    ensures source == TheTransport && !p.transport.playing ==>
              && r.state == Stopped
              && (p.state == Stopped ==> r == p)
              && (p.state != Stopped ==> r.playEnabled && !r.stopEnabled && r.transport.position == 0)
    ensures r.transport.playing == p.transport.playing && r.readerSource == p.readerSource
  {
    match source
    case TheTransport =>
      if p.transport.playing then ChangeState(p, Playing) else ChangeState(p, Stopped)
    case SomeOtherBroadcaster => p
  }

  /** The chooser's callback after a file was picked: no reader (a format
      the manager cannot read) changes nothing; otherwise a reader source
      for it is installed in the transport and the play button is enabled.
      Installing a source in the transport stops its playback and puts it at
      the start of the new source, without a change message. The player's
      state and the stop button are not touched. */
  function ReaderCreated<S>(p: Player<S>, reader: Option<S>): (r: Player<S>)
    ensures reader.None? ==> r == p
    ensures reader.Some? ==> r.readerSource == reader && r.playEnabled
    ensures reader.Some? ==> !r.transport.playing && r.transport.position == 0
    ensures r.state == p.state && r.stopEnabled == p.stopEnabled
  {
    match reader
    case None => p
    case Some(_) => p.(readerSource := reader, playEnabled := true, transport := TransportSource(false, 0))
  }

  /** The audio callback: silence while no reader source is installed,
      otherwise the transport fills the block. */
  function GetNextAudioBlock<S>(p: Player<S>): (a: BlockAction)
    ensures a == ClearBlock <==> p.readerSource.None?
  {
    if p.readerSource.None? then ClearBlock else ForwardToTransport
  }

  /** What can happen to the player: a click on an enabled button (a
      disabled button ignores clicks), a file chosen, a change message, a
      playing transport reading `frames` further into its source, or a
      playing transport reading the last `frames` of the file, which leaves
      it at the end, stops it and makes it broadcast. */
  datatype Event<S> =
    | PlayPressed
    | StopPressed
    | FileChosen(reader: Option<S>)
    | ChangeMessage(source: Broadcaster)
    | TransportAdvanced(frames: nat)
    | TransportFinished(frames: nat)

  function Step<S>(p: Player<S>, e: Event<S>): Player<S> {
    match e
    case PlayPressed => if p.playEnabled then PlayButtonClicked(p) else p
    case StopPressed => if p.stopEnabled then StopButtonClicked(p) else p
    case FileChosen(reader) => ReaderCreated(p, reader)
    case ChangeMessage(source) => ChangeListenerCallback(p, source)
    case TransportAdvanced(frames) =>
      if p.transport.playing
      then p.(transport := p.transport.(position := p.transport.position + frames))
      else p
    case TransportFinished(frames) =>
      if p.transport.playing
      then ChangeListenerCallback(
             p.(transport := TransportSource(false, p.transport.position + frames)), TheTransport)
      else p
  }

  function Run<S>(p: Player<S>, es: seq<Event<S>>): Player<S>
    decreases |es|
  {
    if es == [] then p else Run(Step(p, es[0]), es[1..])
  }

  /** What holds in every state the player can reach:
      the transport plays only in Starting and Playing (a file opened while
      playing stops it without leaving either state);
      stop is disabled in Stopped and enabled in Playing;
      before any file is installed the player is Stopped with both buttons
      disabled. */
  predicate Inv<S>(p: Player<S>) {
    && (p.transport.playing ==> p.state == Starting || p.state == Playing)
    && (p.state == Stopped ==> !p.stopEnabled)
    && (p.state == Playing ==> p.stopEnabled)
    && (p.readerSource.None? ==> p.state == Stopped && !p.playEnabled && !p.stopEnabled)
  }

  lemma InitialInv<S>()
    ensures Inv(Initial<S>())
  {
  }

  lemma StepInv<S>(p: Player<S>, e: Event<S>)
    requires Inv(p)
    ensures Inv(Step(p, e))
  {
  }

  /** Every state reachable from construction satisfies the invariant. */
  lemma {:induction false} RunInv<S>(p: Player<S>, es: seq<Event<S>>)
    requires Inv(p)
    ensures Inv(Run(p, es))
    decreases |es|
  {
    if es != [] {
      StepInv(p, es[0]);
      RunInv(Step(p, es[0]), es[1..]);
    }
  }

  /** In every reachable state other than Stopped the audio callback
      forwards to the transport, and the transport is never playing in
      Stopped or Stopping. */
  lemma ReachableOutput<S>(es: seq<Event<S>>)
    ensures var p := Run(Initial<S>(), es);
            (p.state != Stopped ==> GetNextAudioBlock(p) == ForwardToTransport)
            && (p.state == Stopped || p.state == Stopping ==> !p.transport.playing)
  {
    InitialInv<S>();
    RunInv(Initial<S>(), es);
  }

  /** From any reachable state in which the transport plays, a stop request
      followed by the transport's change message lands in Stopped, rewound,
      with play enabled and stop disabled. */
  lemma StopThenMessageReachesStopped<S>(p: Player<S>)
    requires Inv(p) && p.transport.playing
    ensures var r := ChangeListenerCallback(StopButtonClicked(p), TheTransport);
            && r.state == Stopped && r.transport.position == 0 && !r.transport.playing
            && r.playEnabled && !r.stopEnabled
  {
  }

  /** The whole play/stop cycle: open a file, press play, the transport
      reports it is playing and reads `k` frames, press stop, the transport
      reports it stopped, and entering Stopped rewinds it. */
  lemma PlayStopCycle<S>(src: S, k: nat)
    requires k > 0
    ensures var loaded := Step(Initial<S>(), FileChosen(Some(src)));
            var starting := Step(loaded, PlayPressed);
            var playing := Step(Step(starting, ChangeMessage(TheTransport)), TransportAdvanced(k));
            var stopping := Step(playing, StopPressed);
            var stopped := Step(stopping, ChangeMessage(TheTransport));
            && loaded.state == Stopped && loaded.playEnabled && !loaded.stopEnabled
            && starting.state == Starting && !starting.playEnabled && starting.transport.playing
            && playing.state == Playing && playing.stopEnabled && !playing.playEnabled
            && playing.transport.position == k
            && stopping.state == Stopping && !stopping.transport.playing && stopping.transport.position == k
            && stopped.state == Stopped && stopped.playEnabled && !stopped.stopEnabled
            && stopped.transport.position == 0
  {
  }

  /** Opening a second file while playing, `k` frames into the first, stops
      the transport and puts it at the start of the new source but leaves the
      player in Playing with stop enabled; a stop click then moves it to
      Stopping, and since the transport was not playing no change message
      follows. Play is enabled again by the new file, so a play click still
      restarts playback. */
  lemma ReopenWhilePlaying<S>(first: S, second: S, k: nat)
    requires k > 0
    ensures var loaded := Step(Initial<S>(), FileChosen(Some(first)));
            var playing := Step(Step(Step(loaded, PlayPressed), ChangeMessage(TheTransport)), TransportAdvanced(k));
            var reopened := Step(playing, FileChosen(Some(second)));
            var stopping := Step(reopened, StopPressed);
            var restarted := Step(stopping, PlayPressed);
            && playing.state == Playing && playing.transport.playing && playing.transport.position == k
            && reopened.state == Playing && !reopened.transport.playing && reopened.transport.position == 0
            && reopened.stopEnabled && reopened.playEnabled
            && stopping.state == Stopping && !stopping.transport.playing
            && restarted.state == Starting && restarted.transport.playing
  {
  }

  /** Reaching the end of the file while playing leaves the player in
      Stopped with the transport rewound to the start, whatever state the
      player was in. */
  lemma FinishedReachesStopped<S>(p: Player<S>, frames: nat)
    requires Inv(p) && p.transport.playing
    ensures var r := Step(p, TransportFinished(frames));
            && r.state == Stopped && !r.transport.playing && r.transport.position == 0
            && r.playEnabled && !r.stopEnabled && Inv(r)
  {
  }
}
