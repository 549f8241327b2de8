/** The voice-command dispatcher (bot/engine/command.py): capture one
    utterance, or take the one given, and hand it to exactly one action. */
module Command {
  import opened Text
  import opened Effects
  import opened Features

  /** What `takecommand` returns when recognition fails. */
  const Sentinel := " Unable to Listen! "
  const ListeningBanner := " Listening... "
  const RecognizingBanner := "Recognizing..."
  const NotCaughtMessage := "Sorry, I didn't catch that."
  const NotUnderstoodMessage := "Sorry, I couldn't understand the command."

  // ---------------------------------------------------------------------------
  // takecommand.

  /** What the microphone and the recogniser deliver: a transcript, a
      recogniser that raises, or a `listen` that raises (it times out when
      nobody speaks). */
  datatype Recognition = Recognized(text: string) | NotRecognized | ListenTimedOut

  /** A finished `takecommand`: the texts it displayed and either the string
      it returned or an escaped exception. */
  datatype Heard = Returned(trace: seq<Event>, query: string) | Raised(trace: seq<Event>)

  /** takecommand(): show " Listening... "; `listen` is outside the `try`, so
      its exception escapes. Inside the `try`, show "Recognizing...", then the
      transcript as heard, and return it lower-cased; a failed recognition
      returns the sentinel. */
  function TakeCommand(rec: Recognition): (h: Heard)
    ensures |h.trace| >= 1 && h.trace[0] == Display(ListeningBanner)
    ensures forall e <- h.trace :: e.Display?
    ensures h.Raised? <==> rec.ListenTimedOut?
    ensures h.Returned? ==> (h.query == Sentinel <==> rec.NotRecognized?)
    ensures rec.Recognized? ==>
      h.Returned? && h.query == Lower(rec.text) && h.trace[|h.trace| - 1] == Display(rec.text)
  {
    match rec
    case ListenTimedOut => Raised([Display(ListeningBanner)])
    case NotRecognized => Returned([Display(ListeningBanner), Display(RecognizingBanner)], Sentinel)
    case Recognized(text) =>
      RecognizedIsNotSentinel(text);
      Returned([Display(ListeningBanner), Display(RecognizingBanner), Display(text)], Lower(text))
  }

  /** A lower-cased transcript is never the sentinel: the sentinel holds an
      upper-case 'U'. */
  lemma RecognizedIsNotSentinel(text: string)
    ensures Lower(text) != Sentinel
  {
    if |text| == |Sentinel| {
      assert IsUpper(Sentinel[1]);
      assert !IsUpper(Lower(text)[1]);
    }
  }

  // ---------------------------------------------------------------------------
  // allCommands.

  /** The argument of allCommands: the default `1` (listen for the query), or
      a query passed in. */
  datatype Message = DefaultMessage | Verbatim(query: string)

  /** The effects of a finished command never reach the idle screen. */
  predicate NoShowHood(trace: seq<Event>) {
    forall e <- trace :: !e.ShowHood?
  }

  /** The idle screen is shown exactly once, as the very last effect. */
  predicate EndsWithOneShowHood(trace: seq<Event>) {
    |trace| >= 1 && trace[|trace| - 1] == ShowHood
    && forall i :: 0 <= i < |trace| - 1 ==> trace[i] != ShowHood
  }

  /** `trace` followed by the idle screen, when `trace` never shows it. */
  lemma AppendShowHood(trace: seq<Event>)
    requires NoShowHood(trace)
    ensures EndsWithOneShowHood(trace + [ShowHood])
  {
    forall i | 0 <= i < |trace|
      ensures (trace + [ShowHood])[i] != ShowHood
    {
      assert trace[i] in trace;
    }
  }

  /** The sentinel mentions neither YouTube nor "open". */
  lemma SentinelHasNoKeyword()
    ensures !Contains(Sentinel, "on youtube") && !Contains(Sentinel, "open")
  {
    SentinelLetters();
    AbsentCharNotContained(Sentinel, "on youtube", 'y');
    AbsentCharNotContained(Sentinel, "open", 'p');
  }

  lemma SentinelLetters()
    ensures 'y' !in Sentinel && 'p' !in Sentinel
    ensures 'y' in "on youtube" && 'p' in "open"
  {
  }

  /** The branch allCommands takes, in its order of priority. */
  datatype Route = CaptureFailed | PlayMedia | OpenTarget | NotUnderstood

  function RouteOf(query: string): (r: Route)
    ensures r == CaptureFailed <==> query == Sentinel
    ensures r == PlayMedia ==> Contains(query, "on youtube")
    ensures r == OpenTarget ==> Contains(query, "open")
  {
    if query == Sentinel then CaptureFailed
    else if Contains(query, "on youtube") then PlayMedia
    else if Contains(query, "open") then OpenTarget
    else NotUnderstood
  }

  /** The routing in terms of the query alone: the sentinel is recognised as
      such, "on youtube" wins over "open" wherever they occur, and the rest
      falls through. */
  lemma {:induction false} RoutePriority(query: string)
    ensures RouteOf(query) == CaptureFailed <==> query == Sentinel
    ensures RouteOf(query) == PlayMedia <==> Contains(query, "on youtube")
    ensures RouteOf(query) == OpenTarget <==> Contains(query, "open") && !Contains(query, "on youtube")
    ensures RouteOf(query) == NotUnderstood
      <==> query != Sentinel && !Contains(query, "open") && !Contains(query, "on youtube")
  {
    SentinelHasNoKeyword();
  }

  /** The branch chain of allCommands (lines 57-74) on a known query. The
      idle screen ends every path except the sentinel's and a player that
      raised, and nothing before it shows the idle screen. */
  function Dispatch(query: string, assistantName: string, store: Store, world: World): (r: Run)
    ensures r.raised ==> NoShowHood(r.trace)
    ensures EndsWithOneShowHood(r.trace) <==> query != Sentinel && !r.raised
    ensures query == Sentinel ==> NoShowHood(r.trace)
  {
    match RouteOf(query)
    case CaptureFailed => Run([Speak(NotCaughtMessage)], false)
    case PlayMedia =>
      var played := PlayYoutube(query, world);
      assert NoShowHood(played.trace) by {
        assert played.trace == [played.trace[0], played.trace[1]];
      }
      if played.raised then played
      else
        AppendShowHood(played.trace);
        Run(played.trace + [ShowHood], false)
    case OpenTarget =>
      var effects := OpenCommand(query, assistantName, store, world);
      assert NoShowHood(effects);
      AppendShowHood(effects);
      Run(effects + [ShowHood], false)
    case NotUnderstood =>
      AppendShowHood([Speak(NotUnderstoodMessage)]);
      Run([Speak(NotUnderstoodMessage), ShowHood], false)
  }

  /** allCommands(message): take the query from takecommand for the default
      message, else use the message itself; then dispatch. */
  function AllCommands(msg: Message, rec: Recognition, assistantName: string, store: Store, world: World): (r: Run)
    ensures msg.DefaultMessage? ==> |r.trace| >= 1 && r.trace[0] == Display(ListeningBanner)
    ensures msg.Verbatim? ==> r == Dispatch(msg.query, assistantName, store, world)
  {
    match msg
    case Verbatim(query) => Dispatch(query, assistantName, store, world)
    case DefaultMessage =>
      match TakeCommand(rec)
      case Raised(heard) => Run(heard, true)
      case Returned(heard, query) =>
        var d := Dispatch(query, assistantName, store, world);
        Run(heard + d.trace, d.raised)
  }

  // ---------------------------------------------------------------------------
  // Properties of the dispatcher.

  /** The sentinel only apologises: no action is dispatched and the idle
      screen is not shown. */
  lemma {:induction false} SentinelShortCircuit(assistantName: string, store: Store, world: World)
    ensures Dispatch(Sentinel, assistantName, store, world) == Run([Speak(NotCaughtMessage)], false)
    ensures NoDispatch(Dispatch(Sentinel, assistantName, store, world).trace)
  {
    RoutePriority(Sentinel);
  }

  /** "on youtube" wins over "open": such a query is played, never opened,
      and the idle screen follows unless the player raised. */
  lemma {:induction false} YoutubeFirst(query: string, assistantName: string, store: Store, world: World)
    requires Contains(query, "on youtube")
    ensures var played := PlayYoutube(query, world);
      Dispatch(query, assistantName, store, world)
        == if played.raised then played else Run(played.trace + [ShowHood], false)
    ensures NoOpening(Dispatch(query, assistantName, store, world).trace)
  {
    RoutePriority(query);
    PlayedOnly(query, assistantName, store, world);
  }

  /** Nothing is launched and no page is opened. */
  predicate NoOpening(trace: seq<Event>) {
    forall e <- trace :: !e.Launch? && !e.OpenUrl?
  }

  lemma PlayedOnly(query: string, assistantName: string, store: Store, world: World)
    requires RouteOf(query) == PlayMedia
    ensures NoOpening(Dispatch(query, assistantName, store, world).trace)
  {
    var played := PlayYoutube(query, world);
    var a, b := played.trace[0], played.trace[1];
    assert played.trace == [a, b];
    var r := Dispatch(query, assistantName, store, world);
    assert r.trace == [a, b] || r.trace == [a, b, ShowHood];
  }

  /** A query with "open" and without "on youtube" goes to openCommand as it
      is, followed by the idle screen; nothing is played. */
  lemma {:induction false} OpenRoute(query: string, assistantName: string, store: Store, world: World)
    requires Contains(query, "open") && !Contains(query, "on youtube")
    ensures Dispatch(query, assistantName, store, world)
      == Run(OpenCommand(query, assistantName, store, world) + [ShowHood], false)
    ensures forall e <- Dispatch(query, assistantName, store, world).trace :: !e.PlayOnYoutube?
  {
    RoutePriority(query);
    OpenedOnly(query, assistantName, store, world);
  }

  lemma OpenedOnly(query: string, assistantName: string, store: Store, world: World)
    requires RouteOf(query) == OpenTarget
    ensures forall e <- Dispatch(query, assistantName, store, world).trace :: !e.PlayOnYoutube?
  {
    var effects := OpenCommand(query, assistantName, store, world);
    assert Dispatch(query, assistantName, store, world).trace == effects + [ShowHood];
    OpenEffectsThenIdle(effects);
  }

  lemma OpenEffectsThenIdle(effects: seq<Event>)
    requires OnlyOpenEffects(effects)
    ensures forall e <- effects + [ShowHood] :: !e.PlayOnYoutube?
  {
    forall e | e in effects + [ShowHood]
      ensures !e.PlayOnYoutube?
    {
      if e in effects {
        assert e.Speak? || e.Launch? || e.OpenUrl?;
      }
    }
  }

  /** Any other query is answered with "couldn't understand" and the idle
      screen, and nothing is dispatched. */
  lemma {:induction false} Fallback(query: string, assistantName: string, store: Store, world: World)
    requires query != Sentinel && !Contains(query, "on youtube") && !Contains(query, "open")
    ensures Dispatch(query, assistantName, store, world) == Run([Speak(NotUnderstoodMessage), ShowHood], false)
    ensures NoDispatch(Dispatch(query, assistantName, store, world).trace)
  {
    RoutePriority(query);
  }

  /** Only the player can make allCommands raise. */
  lemma {:induction false} OnlyPlayerRaises(query: string, assistantName: string, store: Store, world: World)
    ensures Dispatch(query, assistantName, store, world).raised
      <==> Contains(query, "on youtube") && world.playFails(world.extractYtTerm(query))
  {
    RoutePriority(query);
  }

  /** With the default message, a listen that times out escapes after
      " Listening... " alone; a failed recognition apologises without showing
      the idle screen; a transcript is dispatched lower-cased, after the three
      captions. */
  lemma {:induction false} DefaultMessageListens(rec: Recognition, assistantName: string, store: Store, world: World)
    ensures rec.ListenTimedOut? ==>
      AllCommands(DefaultMessage, rec, assistantName, store, world) == Run([Display(ListeningBanner)], true)
    ensures rec.NotRecognized? ==>
      AllCommands(DefaultMessage, rec, assistantName, store, world)
        == Run([Display(ListeningBanner), Display(RecognizingBanner), Speak(NotCaughtMessage)], false)
    ensures rec.Recognized? ==>
      var d := Dispatch(Lower(rec.text), assistantName, store, world);
      AllCommands(DefaultMessage, rec, assistantName, store, world)
        == Run([Display(ListeningBanner), Display(RecognizingBanner), Display(rec.text)] + d.trace, d.raised)
  {
    if rec.NotRecognized? {
      RoutePriority(Sentinel);
    }
  }

  /** A recognised utterance always ends on the idle screen, shown once,
      unless the player raised. */
  lemma {:induction false} RecognizedEndsIdle(text: string, assistantName: string, store: Store, world: World)
    ensures var r := AllCommands(DefaultMessage, Recognized(text), assistantName, store, world);
      !r.raised ==> EndsWithOneShowHood(r.trace)
  {
    RecognizedIsNotSentinel(text);
    RoutePriority(Lower(text));
    var d := Dispatch(Lower(text), assistantName, store, world);
    var heard := [Display(ListeningBanner), Display(RecognizingBanner), Display(text)];
    assert AllCommands(DefaultMessage, Recognized(text), assistantName, store, world) == Run(heard + d.trace, d.raised);
    if !d.raised {
      PrefixKeepsOneShowHood(heard, d.trace);
    }
  }

  /** Captions shown before a trace that ends on the idle screen once keep
      it so. */
  lemma PrefixKeepsOneShowHood(heard: seq<Event>, trace: seq<Event>)
    requires NoShowHood(heard) && EndsWithOneShowHood(trace)
    ensures EndsWithOneShowHood(heard + trace)
  {
    forall i | 0 <= i < |heard + trace| - 1
      ensures (heard + trace)[i] != ShowHood
    {
      if i < |heard| {
        assert heard[i] in heard;
      } else {
        assert (heard + trace)[i] == trace[i - |heard|];
      }
    }
  }
}
