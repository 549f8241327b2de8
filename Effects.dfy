/** The observable effects of one interaction, in the order they are issued.
    Every call into the outside world (text-to-speech, the presentation
    layer, process launch, the browser, the media player) is one event. */
module Effects {

  datatype Event =
    | Display(text: string)        // eel.DisplayMessage issued directly, not through speak
    | Speak(text: string)          // speak(text): shows the text and reads it aloud
    | Launch(argv: seq<string>)    // subprocess.Popen(argv)
    | OpenUrl(url: string)         // webbrowser.open(url)
    | PlayOnYoutube(term: string)  // pywhatkit.playonyt(term)
    | ShowHood                     // eel.ShowHood(): back to the idle screen

  /** A finished call: the effects it issued, and whether an exception escaped it. */
  datatype Run = Run(trace: seq<Event>, raised: bool)

  /** No event of the trace reaches an external launcher, browser or player. */
  predicate NoDispatch(trace: seq<Event>) {
    forall e <- trace :: !e.Launch? && !e.OpenUrl? && !e.PlayOnYoutube?
  }
}
