/** Worked examples of the open-command pipeline: the name extraction on
    two families of utterances, and complete runs on concrete tables. */
module Scenarios {
  import opened Text
  import opened Effects
  import opened Features
  import opened Command

  // ---------------------------------------------------------------------
  // "open <target>"
  // ---------------------------------------------------------------------

  /** "open <target>", for a target without "p" and an assistant name that
      does not occur in the query, names the target. */
  lemma {:induction false} OpenTargetNameQuery(target: string, assistantName: string)
    requires IsStripped(target) && target != []
    requires IsLower(target) && 'p' !in target
    requires !Contains("open " + target, Lower(assistantName))
    ensures AppName("open " + target, assistantName) == target
  {
    OpenTargetNormalised(target);
    OpenTargetRemoveOpen(target);
    SpaceThenStripped(target);
    NameAbsentQuery("open " + target, assistantName);
  }

  /** When the assistant name does not occur, only "open" is removed. */
  lemma NameAbsentQuery(query: string, assistantName: string)
    requires !Contains(Strip(Lower(query)), Lower(assistantName))
    ensures NameQuery(query, assistantName) == Strip(Replace(Strip(Lower(query)), "open", ""))
  {
  }

  lemma OpenTargetNormalised(target: string)
    requires IsStripped(target) && target != [] && IsLower(target)
    ensures Strip(Lower("open " + target)) == "open " + target
  {
    OpenThenTarget(target);
    LowerOfLower("open " + target);
    StripOfStripped("open " + target);
  }

  lemma OpenTargetRemoveOpen(target: string)
    requires IsStripped(target) && target != [] && IsLower(target) && 'p' !in target
    ensures Replace("open " + target, "open", "") == " " + target
  {
    OpenThenTarget(target);
    ReplaceAtFront("open", " " + target, "");
    AbsentCharNotContained(" " + target, "open", 'p');
    ReplaceAbsent(" " + target, "open", "");
  }

  lemma OpenThenTarget(target: string)
    requires IsStripped(target) && target != [] && IsLower(target)
    ensures "open " + target == "open" + (" " + target)
    ensures IsLower("open " + target) && IsStripped("open " + target)
  {
  }

  lemma SpaceThenStripped(target: string)
    requires IsStripped(target) && target != []
    ensures Strip(" " + target) == target
  {
    SpacesStripLeft(" ", target);
    StripOfStripped(target);
  }

  /** Spaces in front of a word are dropped by the left strip. */
  lemma {:induction false} SpacesStripLeft(spaces: string, word: string)
    requires forall k :: 0 <= k < |spaces| ==> spaces[k] == ' '
    requires word != [] && !IsSpace(word[0])
    ensures StripLeft(spaces + word) == word
  {
    if spaces == [] {
      assert spaces + word == word;
    } else {
      assert (spaces + word)[1..] == spaces[1..] + word;
      SpacesStripLeft(spaces[1..], word);
    }
  }

  // ---------------------------------------------------------------------
  // "open <name> open <target>"
  // ---------------------------------------------------------------------

  /** Both the assistant name and "open" are removed wherever they occur, so
      "open <name> open <target>" names the target. */
  lemma {:induction false} NameAndOpenRemoved(n: string, target: string, assistantName: string)
    requires Lower(assistantName) == n && n != [] && IsLower(n)
    requires n[0] !in "open " && !Contains(" open " + target, n)
    requires target != [] && IsStripped(target) && IsLower(target) && 'p' !in target
    ensures AppName("open " + (n + (" open " + target)), assistantName) == target
  {
    var q := "open " + (n + (" open " + target));
    RepeatedNormalised(n, target);
    NameRemovedEverywhere(n, " open " + target);
    OpenRemovedTwice(target);
    LeadingSpacesStripped(target);
    NameGuardRedundant(q, assistantName);
  }

  lemma RepeatedNormalised(n: string, target: string)
    requires n != [] && IsLower(n) && n[0] !in "open "
    requires target != [] && IsStripped(target) && IsLower(target)
    ensures Strip(Lower("open " + (n + (" open " + target)))) == "open " + (n + (" open " + target))
  {
    var q := "open " + (n + (" open " + target));
    assert IsLower(q) && IsStripped(q);
    LowerOfLower(q);
    StripOfStripped(q);
  }

  lemma NameRemovedEverywhere(n: string, rest: string)
    requires n != [] && n[0] !in "open " && !Contains(rest, n)
    ensures Replace("open " + (n + rest), n, "") == "open " + rest
  {
    ReplaceCopiesPrefix("open ", n + rest, n, "");
    ReplaceAtFront(n, rest, "");
    ReplaceAbsent(rest, n, "");
    assert "" + rest == rest;
  }

  lemma OpenRemovedTwice(target: string)
    requires 'p' !in target
    ensures Replace("open " + (" open " + target), "open", "") == "  " + (" " + target)
  {
    assert "open " + (" open " + target) == "open" + ("  " + ("open" + (" " + target)));
    ReplaceAtFront("open", "  " + ("open" + (" " + target)), "");
    OpenRemovedAfterSpaces(target);
    assert "" + ("  " + (" " + target)) == "  " + (" " + target);
  }

  lemma OpenRemovedAfterSpaces(target: string)
    requires 'p' !in target
    ensures Replace("  " + ("open" + (" " + target)), "open", "") == "  " + (" " + target)
  {
    ReplaceCopiesPrefix("  ", "open" + (" " + target), "open", "");
    OpenRemovedOnce(target);
  }

  lemma OpenRemovedOnce(target: string)
    requires 'p' !in target
    ensures Replace("open" + (" " + target), "open", "") == " " + target
  {
    ReplaceAtFront("open", " " + target, "");
    AbsentCharNotContained(" " + target, "open", 'p');
    ReplaceAbsent(" " + target, "open", "");
    assert "" + (" " + target) == " " + target;
  }

  lemma LeadingSpacesStripped(target: string)
    requires target != [] && IsStripped(target)
    ensures Strip("  " + (" " + target)) == target
  {
    SpacesStripLeft("  " + " ", target);
    assert "  " + (" " + target) == ("  " + " ") + target;
    StripOfStripped(target);
  }

  /** "open jarvis open calculator" with assistant name "Jarvis" names
      "calculator". */
  lemma CalculatorExample()
    ensures AppName("open jarvis open calculator", "Jarvis") == "calculator"
  {
    assert Lower("Jarvis") == "jarvis" && IsLower("jarvis");
    assert "open jarvis open calculator" == "open " + ("jarvis" + (" open " + "calculator"));
    assert IsStripped("calculator") && IsLower("calculator") && 'p' !in "calculator";
    assert "jarvis"[0] !in "open ";
    JarvisAbsentFromTail();
    NameAndOpenRemoved("jarvis", "calculator", "Jarvis");
  }

  lemma JarvisAbsentFromTail()
    ensures !Contains(" open " + "calculator", "jarvis")
  {
    AbsentCharNotContained(" open " + "calculator", "jarvis", 'j');
  }

  // ---------------------------------------------------------------------
  // Complete runs
  // ---------------------------------------------------------------------

  /** "open notes" with the system command ("notes", "/usr/bin/notes-app")
      says "Opening notes" and launches exactly ["/usr/bin/notes-app"], for
      any assistant name that does not occur in "open notes". */
  lemma OpenNotesExample(assistantName: string, web: Table, world: World)
    requires !Contains("open " + "notes", Lower(assistantName))
    requires !world.launchFails(["/usr/bin/notes-app"])
    ensures OpenCommand("open " + "notes", assistantName, Store(Present([Row("notes", "/usr/bin/notes-app")]), web), world)
      == [Speak("Opening notes"), Launch(["/usr/bin/notes-app"])]
  {
    assert IsStripped("notes") && IsLower("notes") && 'p' !in "notes";
    OpenTargetNameQuery("notes", assistantName);
    NotesLaunch(assistantName, web, world);
  }

  lemma NotesLaunch(assistantName: string, web: Table, world: World)
    requires AppName("open " + "notes", assistantName) == "notes"
    requires !world.launchFails(["/usr/bin/notes-app"])
    ensures OpenCommand("open " + "notes", assistantName, Store(Present([Row("notes", "/usr/bin/notes-app")]), web), world)
      == [Speak("Opening notes"), Launch(["/usr/bin/notes-app"])]
  {
    var sys := [Row("notes", "/usr/bin/notes-app")];
    OpenCommandIsOpenApp("open " + "notes", assistantName, Store(Present(sys), web), world);
    NotesApp(web, world);
  }

  lemma NotesApp(web: Table, world: World)
    requires !world.launchFails(["/usr/bin/notes-app"])
    ensures OpenApp("notes", Store(Present([Row("notes", "/usr/bin/notes-app")]), web), world)
      == [Speak("Opening notes"), Launch(["/usr/bin/notes-app"])]
  {
    assert OpeningPrefix + "notes" == "Opening notes";
    assert NoSpace("/usr/bin/notes-app");
    var sys := [Row("notes", "/usr/bin/notes-app")];
    var argv := ["/usr/bin/notes-app"];
    assert Strip("notes") == "notes" by { StripOfStripped("notes"); }
    assert FirstMatch(sys, "notes") == 0;
    AppSystemHit("notes", sys, web, world);
    SplitSingleWord("/usr/bin/notes-app");
    assert !LaunchRaises(argv, world);
    assert [Speak("Opening notes"), Launch(argv)] + [] == [Speak("Opening notes"), Launch(argv)];
  }

  /** "open weather" when neither table has "weather": only the "not found"
      message, and no launch. */
  lemma OpenWeatherExample(assistantName: string, sys: seq<Row>, web: seq<Row>, world: World)
    requires !Contains("open " + "weather", Lower(assistantName))
    requires forall i :: 0 <= i < |sys| ==> sys[i].name != "weather"
    requires forall i :: 0 <= i < |web| ==> web[i].name != "weather"
    ensures OpenCommand("open " + "weather", assistantName, Store(Present(sys), Present(web)), world) == [Speak(NotFoundMessage)]
  {
    assert IsStripped("weather") && IsLower("weather") && 'p' !in "weather";
    OpenTargetNameQuery("weather", assistantName);
    OpenMiss("open " + "weather", assistantName, sys, web, world);
  }

  /** "play lofi beats on youtube", for a term extractor that yields "lofi
      beats": the acknowledgement names the term and comes before the play
      request for that same term, and nothing is launched or opened. */
  lemma LofiBeatsExample(assistantName: string, store: Store, world: World)
    requires world.extractYtTerm("play lofi beats on youtube") == "lofi beats"
    ensures var r := Dispatch("play lofi beats on youtube", assistantName, store, world);
      |r.trace| >= 2
      && r.trace[0] == Speak("Playing lofi beats on YouTube") && r.trace[1] == PlayOnYoutube("lofi beats")
      && NoOpening(r.trace)
  {
    assert "Playing " + "lofi beats" + " on YouTube" == "Playing lofi beats on YouTube";
    LofiQueryHasKeyword();
    YoutubeFirst("play lofi beats on youtube", assistantName, store, world);
  }

  lemma LofiQueryHasKeyword()
    ensures Contains("play lofi beats on youtube", "on youtube")
  {
    ContainedInMiddle("play lofi beats ", "on youtube", "");
    assert "play lofi beats " + "on youtube" + "" == "play lofi beats on youtube";
  }

  /** The bare utterance "open" names nothing: openCommand says and launches
      nothing, and the dispatcher only returns to the idle screen. This holds
      for any assistant name that does not occur in "open". */
  lemma OpenAloneIsSilent(assistantName: string, store: Store, world: World)
    requires !Contains("open", Lower(assistantName))
    ensures OpenCommand("open", assistantName, store, world) == []
    ensures Dispatch("open", assistantName, store, world) == Run([ShowHood], false)
  {
    OpenAloneName(assistantName);
    assert AppName("open", assistantName) == [];
    OpenAloneHasKeyword();
    OpenRoute("open", assistantName, store, world);
  }

  lemma OpenAloneName(assistantName: string)
    requires !Contains("open", Lower(assistantName))
    ensures NameQuery("open", assistantName) == []
  {
    OpenAloneNormalised();
    OpenAloneRemoved();
  }

  lemma OpenAloneNormalised()
    ensures Strip(Lower("open")) == "open"
  {
    assert IsLower("open") && IsStripped("open");
    LowerOfLower("open");
    StripOfStripped("open");
  }

  lemma OpenAloneRemoved()
    ensures Replace("open", "open", "") == [] && Strip([]) == []
  {
    ReplaceAtFront("open", [], "");
    assert "open" + [] == "open";
  }

  lemma OpenAloneHasKeyword()
    ensures Contains("open", "open") && !Contains("open", "on youtube")
  {
    assert StartsWith("open", "open");
    AbsentCharNotContained("open", "on youtube", 'y');
  }
}
