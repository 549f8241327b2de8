/** The actions behind the dispatcher (bot/engine/features.py): opening a
    system or web command by name, playing a video, and the readiness flag
    that holds back wake-word detection until the front end has loaded. */
module Features {
  import opened Text
  import opened Effects

  // ---------------------------------------------------------------------------
  // The command store and the outside world.

  /** One row of `sys_command` or `web_command`: a name and a path or URL. */
  datatype Row = Row(name: string, path: string)

  /** A table as the lookup sees it: its rows in table order, or a table whose
      query raises (a missing table, a locked or unreadable database). */
  datatype Table = Present(rows: seq<Row>) | Failing

  datatype Store = Store(sysCommand: Table, webCommand: Table)

  /** What the model does not compute itself: the search term taken from a
      YouTube request (`extract_yt_term`), and which foreign calls raise. */
  datatype World = World(
    extractYtTerm: string -> string,
    launchFails: seq<string> -> bool,
    browserFails: string -> bool,
    playFails: string -> bool)

  const OpeningPrefix := "Opening "
  const LaunchFailedMessage := "Unable to open the app."
  const NotFoundMessage := "App not found in system or web commands."
  const LookupFailedMessage := "Something went wrong!"

  // ---------------------------------------------------------------------------
  // Name extraction.

  /** The local `query` of openCommand once the word "open" is gone: lower-cased
      and stripped, then every occurrence of the lower-cased assistant name
      removed (only when it occurs), then every "open" removed, then stripped.
      The result is lower case with no whitespace at either end, so only
      lower-case table entries can ever match. */
  function NameQuery(query: string, assistantName: string): (r: string)
    ensures IsLower(r) && IsStripped(r)
  {
    var q := Strip(Lower(query));
    StripKeepsLower(Lower(query));
    var name := Lower(assistantName);
    var q := if Contains(q, name) then Replace(q, name, "") else q;
    ReplaceKeepsLower(Strip(Lower(query)), name, "");
    ReplaceKeepsLower(q, "open", "");
    StripKeepsLower(Replace(q, "open", ""));
    Strip(Replace(q, "open", ""))
  }

  /** `app_name`, the key looked up in both tables: stripping the already
      stripped query again changes nothing. */
  function AppName(query: string, assistantName: string): (r: string)
    ensures r == NameQuery(query, assistantName)
  {
    StripOfStripped(NameQuery(query, assistantName));
    Strip(NameQuery(query, assistantName))
  }

  /** The guard before removing the assistant name changes nothing: removing
      a name that does not occur leaves the query as it is. */
  lemma {:induction false} NameGuardRedundant(query: string, assistantName: string)
    ensures NameQuery(query, assistantName)
      == Strip(Replace(Replace(Strip(Lower(query)), Lower(assistantName), ""), "open", ""))
  {
    var q := Strip(Lower(query));
    if !Contains(q, Lower(assistantName)) {
      ReplaceAbsent(q, Lower(assistantName), "");
    }
  }

  /** The query's letter case does not matter. */
  lemma {:induction false} AppNameIgnoresCase(query: string, assistantName: string)
    ensures AppName(Lower(query), assistantName) == AppName(query, assistantName)
    ensures AppName(query, Lower(assistantName)) == AppName(query, assistantName)
  {
    LowerOfLower(Lower(query));
    LowerOfLower(Lower(assistantName));
  }

  // ---------------------------------------------------------------------------
  // Lookup: `SELECT path FROM <table> WHERE name = ?`, then `results[0][0]`.

  /** The paths of the rows named `name`, in table order (what `fetchall` returns). */
  function SelectPaths(rows: seq<Row>, name: string): (paths: seq<string>)
    ensures |paths| <= |rows|
    ensures paths == [] <==> forall i :: 0 <= i < |rows| ==> rows[i].name != name
  {
    if rows == [] then []
    else if rows[0].name == name then [rows[0].path] + SelectPaths(rows[1..], name)
    else
      var tail := SelectPaths(rows[1..], name);
      assert forall i :: 1 <= i < |rows| ==> rows[i] == rows[1..][i - 1];
      tail
  }

  /** The index of the first row named `name`, or `|rows|` when there is none. */
  function FirstMatch(rows: seq<Row>, name: string): (i: nat)
    ensures i <= |rows|
    ensures i < |rows| ==> rows[i].name == name
    ensures forall j :: 0 <= j < i ==> rows[j].name != name
  {
    if rows == [] then 0
    else if rows[0].name == name then 0
    else 1 + FirstMatch(rows[1..], name)
  }

  /** `results[0][0]` is the path of the first row with that name. */
  lemma {:induction false} SelectHead(rows: seq<Row>, name: string)
    requires SelectPaths(rows, name) != []
    ensures FirstMatch(rows, name) < |rows|
    ensures SelectPaths(rows, name)[0] == rows[FirstMatch(rows, name)].path
  {
    if rows[0].name != name {
      SelectHead(rows[1..], name);
    }
  }

  datatype Lookup = LookupFailed | Miss | Hit(path: string)

  /** One table query: it raises, finds no row, or yields the first row's path. */
  function LookupIn(t: Table, name: string): (r: Lookup)
    ensures r.LookupFailed? <==> t.Failing?
    ensures r.Miss? <==> t.Present? && forall i :: 0 <= i < |t.rows| ==> t.rows[i].name != name
    ensures r.Hit? ==> (t.Present? && FirstMatch(t.rows, name) < |t.rows|
      && r.path == t.rows[FirstMatch(t.rows, name)].path)
  {
    match t
    case Failing => LookupFailed
    case Present(rows) =>
      var results := SelectPaths(rows, name);
      if |results| != 0 then
        SelectHead(rows, name);
        Hit(results[0])
      else Miss
  }

  // ---------------------------------------------------------------------------
  // openCommand.

  /** `subprocess.Popen` raises on an empty argument vector (there is no
      program to run), and otherwise as the world decides. */
  predicate LaunchRaises(argv: seq<string>, world: World) {
    argv == [] || world.launchFails(argv)
  }

  /** Speaking, and the launcher or browser it reaches, are the only effects
      of openCommand: it never shows the idle screen, plays or displays. */
  function OnlyOpenEffects(trace: seq<Event>): (b: bool)
    ensures b ==> forall e <- trace :: !e.Display? && !e.PlayOnYoutube? && !e.ShowHood?
  {
    forall e <- trace :: e.Speak? || e.Launch? || e.OpenUrl?
  }

  /** A hit in `sys_command`: announce, launch the path split on whitespace,
      and report (not raise) a failed launch. */
  function SystemHitEffects(spoken: string, pathToRun: string, world: World): (trace: seq<Event>)
    ensures OnlyOpenEffects(trace) && 2 <= |trace| <= 3
  {
    var argv := Split(pathToRun);
    [Speak(OpeningPrefix + spoken), Launch(argv)]
    + (if LaunchRaises(argv, world) then [Speak(LaunchFailedMessage)] else [])
  }

  /** A hit in `web_command`: announce and open the URL; a browser that raises
      is caught by the outer handler. */
  function WebHitEffects(spoken: string, webUrl: string, world: World): (trace: seq<Event>)
    ensures OnlyOpenEffects(trace) && 2 <= |trace| <= 3
  {
    [Speak(OpeningPrefix + spoken), OpenUrl(webUrl)]
    + (if world.browserFails(webUrl) then [Speak(LookupFailedMessage)] else [])
  }

  /** The tail of openCommand once the name is extracted: `spoken` is the
      local `query`, and the stripped `spoken` is the key looked up. Every
      exception inside is caught, so it always returns normally. */
  function OpenApp(spoken: string, store: Store, world: World): (trace: seq<Event>)
    ensures OnlyOpenEffects(trace)
    ensures |trace| <= 3
    ensures trace == [] <==> Strip(spoken) == []
  {
    var app := Strip(spoken);
    if app == [] then []
    else
      match LookupIn(store.sysCommand, app)
      case LookupFailed => [Speak(LookupFailedMessage)]
      case Hit(pathToRun) => SystemHitEffects(spoken, pathToRun, world)
      case Miss =>
        match LookupIn(store.webCommand, app)
        case LookupFailed => [Speak(LookupFailedMessage)]
        case Hit(webUrl) => WebHitEffects(spoken, webUrl, world)
        case Miss => [Speak(NotFoundMessage)]
  }

  /** openCommand(query): the effects it issues. It is silent exactly when the
      extracted name is empty: then it looks nothing up, says nothing and
      launches nothing. */
  function OpenCommand(query: string, assistantName: string, store: Store, world: World): (trace: seq<Event>)
    ensures OnlyOpenEffects(trace)
    ensures trace == [] <==> AppName(query, assistantName) == []
  {
    OpenApp(NameQuery(query, assistantName), store, world)
  }


  // The four outcomes of the lookup, first for the tail of openCommand and
  // then for openCommand itself.

  lemma {:induction false} AppSystemHit(spoken: string, sys: seq<Row>, web: Table, world: World)
    requires Strip(spoken) != [] && FirstMatch(sys, Strip(spoken)) < |sys|
    ensures OpenApp(spoken, Store(Present(sys), web), world)
      == SystemHitEffects(spoken, sys[FirstMatch(sys, Strip(spoken))].path, world)
  {
    var r := LookupIn(Present(sys), Strip(spoken));
    assert r.Hit? && r.path == sys[FirstMatch(sys, Strip(spoken))].path;
  }

  lemma {:induction false} AppWebHit(spoken: string, sys: seq<Row>, web: seq<Row>, world: World)
    requires Strip(spoken) != []
    requires FirstMatch(sys, Strip(spoken)) == |sys| && FirstMatch(web, Strip(spoken)) < |web|
    ensures OpenApp(spoken, Store(Present(sys), Present(web)), world)
      == WebHitEffects(spoken, web[FirstMatch(web, Strip(spoken))].path, world)
  {
    assert LookupIn(Present(sys), Strip(spoken)).Miss?;
    var r := LookupIn(Present(web), Strip(spoken));
    assert r.Hit? && r.path == web[FirstMatch(web, Strip(spoken))].path;
  }

  lemma {:induction false} AppMiss(spoken: string, sys: seq<Row>, web: seq<Row>, world: World)
    requires Strip(spoken) != []
    requires FirstMatch(sys, Strip(spoken)) == |sys| && FirstMatch(web, Strip(spoken)) == |web|
    ensures OpenApp(spoken, Store(Present(sys), Present(web)), world) == [Speak(NotFoundMessage)]
  {
    assert LookupIn(Present(sys), Strip(spoken)).Miss?;
    assert LookupIn(Present(web), Strip(spoken)).Miss?;
  }

  lemma {:induction false} AppLookupFails(spoken: string, store: Store, world: World)
    requires Strip(spoken) != []
    requires store.sysCommand.Failing?
      || (store.sysCommand.Present? && FirstMatch(store.sysCommand.rows, Strip(spoken)) == |store.sysCommand.rows|
          && store.webCommand.Failing?)
    ensures OpenApp(spoken, store, world) == [Speak(LookupFailedMessage)]
  {
    assert store.sysCommand.Present? ==> LookupIn(store.sysCommand, Strip(spoken)).Miss?;
  }

  /** openCommand is its tail applied to the extracted name, which is its own
      strip. */
  lemma {:induction false} OpenCommandIsOpenApp(query: string, assistantName: string, store: Store, world: World)
    ensures var spoken := NameQuery(query, assistantName);
      Strip(spoken) == spoken && spoken == AppName(query, assistantName)
      && OpenCommand(query, assistantName, store, world) == OpenApp(spoken, store, world)
  {
  }

  /** A hit in `sys_command`: "Opening <name>", then a launch of the first
      matching row's path split on whitespace, then (only if the launch
      raised) an apology. `web_command` plays no part. */
  lemma {:induction false} OpenSystemHit(query: string, assistantName: string, sys: seq<Row>, web: Table, world: World)
    requires AppName(query, assistantName) != []
    requires FirstMatch(sys, AppName(query, assistantName)) < |sys|
    ensures var app := AppName(query, assistantName);
      var argv := Split(sys[FirstMatch(sys, app)].path);
      OpenCommand(query, assistantName, Store(Present(sys), web), world)
        == [Speak(OpeningPrefix + app), Launch(argv)]
           + (if LaunchRaises(argv, world) then [Speak(LaunchFailedMessage)] else [])
  {
    OpenCommandIsOpenApp(query, assistantName, Store(Present(sys), web), world);
    AppSystemHit(NameQuery(query, assistantName), sys, web, world);
  }

  /** Which web table there is does not matter once the system table has a hit. */
  lemma {:induction false} SystemHitIgnoresWeb(query: string, assistantName: string, sys: seq<Row>, web1: Table, web2: Table, world: World)
    requires FirstMatch(sys, AppName(query, assistantName)) < |sys|
    ensures OpenCommand(query, assistantName, Store(Present(sys), web1), world)
         == OpenCommand(query, assistantName, Store(Present(sys), web2), world)
  {
    var spoken := NameQuery(query, assistantName);
    OpenCommandIsOpenApp(query, assistantName, Store(Present(sys), web1), world);
    OpenCommandIsOpenApp(query, assistantName, Store(Present(sys), web2), world);
    if spoken != [] {
      AppSystemHit(spoken, sys, web1, world);
      AppSystemHit(spoken, sys, web2, world);
    }
  }

  /** `web_command` is consulted only after `sys_command` has no row of that
      name; a hit there says "Opening <name>" and opens the first row's URL. */
  lemma {:induction false} OpenWebHit(query: string, assistantName: string, sys: seq<Row>, web: seq<Row>, world: World)
    requires AppName(query, assistantName) != []
    requires FirstMatch(sys, AppName(query, assistantName)) == |sys|
    requires FirstMatch(web, AppName(query, assistantName)) < |web|
    ensures var app := AppName(query, assistantName);
      var url := web[FirstMatch(web, app)].path;
      OpenCommand(query, assistantName, Store(Present(sys), Present(web)), world)
        == [Speak(OpeningPrefix + app), OpenUrl(url)]
           + (if world.browserFails(url) then [Speak(LookupFailedMessage)] else [])
  {
    OpenCommandIsOpenApp(query, assistantName, Store(Present(sys), Present(web)), world);
    AppWebHit(NameQuery(query, assistantName), sys, web, world);
  }

  /** A name in neither table is reported, and nothing is launched or opened. */
  lemma {:induction false} OpenMiss(query: string, assistantName: string, sys: seq<Row>, web: seq<Row>, world: World)
    requires AppName(query, assistantName) != []
    requires FirstMatch(sys, AppName(query, assistantName)) == |sys|
    requires FirstMatch(web, AppName(query, assistantName)) == |web|
    ensures OpenCommand(query, assistantName, Store(Present(sys), Present(web)), world) == [Speak(NotFoundMessage)]
    ensures NoDispatch(OpenCommand(query, assistantName, Store(Present(sys), Present(web)), world))
  {
    OpenCommandIsOpenApp(query, assistantName, Store(Present(sys), Present(web)), world);
    AppMiss(NameQuery(query, assistantName), sys, web, world);
  }

  /** A query that raises is reported as "Something went wrong!" and nothing
      else happens; a failing `web_command` is only reached after a miss in
      `sys_command`. */
  lemma {:induction false} OpenLookupFails(query: string, assistantName: string, store: Store, world: World)
    requires AppName(query, assistantName) != []
    requires store.sysCommand.Failing?
      || (store.sysCommand.Present? && FirstMatch(store.sysCommand.rows, AppName(query, assistantName)) == |store.sysCommand.rows|
          && store.webCommand.Failing?)
    ensures OpenCommand(query, assistantName, store, world) == [Speak(LookupFailedMessage)]
  {
    OpenCommandIsOpenApp(query, assistantName, store, world);
    AppLookupFails(NameQuery(query, assistantName), store, world);
  }

  /** A system command whose path is blank always fails to launch: the
      argument vector is empty, and the failure is reported, not raised. */
  lemma {:induction false} BlankPathFails(query: string, assistantName: string, sys: seq<Row>, web: Table, world: World)
    requires AppName(query, assistantName) != []
    requires FirstMatch(sys, AppName(query, assistantName)) < |sys|
    requires forall k :: (0 <= k < |sys[FirstMatch(sys, AppName(query, assistantName))].path|
      ==> IsSpace(sys[FirstMatch(sys, AppName(query, assistantName))].path[k]))
    ensures OpenCommand(query, assistantName, Store(Present(sys), web), world)
      == [Speak(OpeningPrefix + AppName(query, assistantName)), Launch([]), Speak(LaunchFailedMessage)]
  {
    var spoken := NameQuery(query, assistantName);
    OpenCommandIsOpenApp(query, assistantName, Store(Present(sys), web), world);
    BlankSplit(sys[FirstMatch(sys, spoken)].path);
    AppBlankPath(spoken, sys, web, world);
  }

  lemma {:induction false} AppBlankPath(spoken: string, sys: seq<Row>, web: Table, world: World)
    requires Strip(spoken) != [] && FirstMatch(sys, Strip(spoken)) < |sys|
    requires Split(sys[FirstMatch(sys, Strip(spoken))].path) == []
    ensures OpenApp(spoken, Store(Present(sys), web), world)
      == [Speak(OpeningPrefix + spoken), Launch([]), Speak(LaunchFailedMessage)]
  {
    AppSystemHit(spoken, sys, web, world);
    var path := sys[FirstMatch(sys, Strip(spoken))].path;
    assert LaunchRaises([], world);
    assert SystemHitEffects(spoken, path, world)
      == [Speak(OpeningPrefix + spoken), Launch([])] + [Speak(LaunchFailedMessage)];
  }

  lemma BlankSplit(path: string)
    requires forall k :: 0 <= k < |path| ==> IsSpace(path[k])
    ensures Split(path) == []
  {
    SplitEmptyIff(path);
  }

  // ---------------------------------------------------------------------------
  // PlayYoutube.

  /** PlayYoutube(query): announce the term, then play it; an exception
      from the player is not caught. */
  function PlayYoutube(query: string, world: World): (r: Run)
    ensures |r.trace| == 2 && r.trace[0].Speak? && r.trace[1].PlayOnYoutube?
    ensures r.trace[1].term == world.extractYtTerm(query)
    ensures r.trace[0].text == "Playing " + r.trace[1].term + " on YouTube"
    ensures r.raised <==> world.playFails(r.trace[1].term)
  {
    var searchTerm := world.extractYtTerm(query);
    Run([Speak("Playing " + searchTerm + " on YouTube"), PlayOnYoutube(searchTerm)], world.playFails(searchTerm))
  }

  // ---------------------------------------------------------------------------
  // The readiness flag.

  datatype GateEvent = WaitingForFrontend | HotwordStarted

  /** `n` rounds of "waiting for frontend". */
  function Waits(n: nat): (r: seq<GateEvent>)
    ensures |r| == n && forall i :: 0 <= i < n ==> r[i] == WaitingForFrontend
  {
    if n == 0 then [] else Waits(n - 1) + [WaitingForFrontend]
  }

  /** The module-level `frontend_ready` flag, and the log of what the
      launcher of wake-word detection did with it. */
  class FrontendGate {
    var frontendReady: bool
    var log: seq<GateEvent>

    /** At import time the flag is down. */
    constructor ()
      ensures !frontendReady && log == []
    {
      frontendReady := false;
      log := [];
    }

    /** notifyFrontendReady: raise the flag; a second call changes nothing. */
    method NotifyFrontendReady()
      modifies this
      ensures frontendReady && log == old(log)
      ensures old(frontendReady) ==> unchanged(this)
    {
      frontendReady := true;
    }

    /** startHotwordAfterFrontend: poll the flag once a second until it is up,
        then start wake-word detection. The front end's notifyFrontendReady
        runs on another thread; here it lands after `readyAfter` polls (at
        once when `readyAfter` is 0), unless the flag was already up. */
    method StartHotwordAfterFrontend(readyAfter: nat)
      modifies this
      ensures frontendReady
      ensures log == old(log) + Waits(if old(frontendReady) then 0 else readyAfter) + [HotwordStarted]
    {
      var polls := 0;
      if !frontendReady && readyAfter == 0 {
        NotifyFrontendReady();
      }
      while !frontendReady
        invariant polls <= readyAfter
        invariant old(frontendReady) ==> frontendReady && polls == 0
        invariant !old(frontendReady) && frontendReady ==> polls == readyAfter
        invariant !frontendReady ==> polls < readyAfter
        invariant log == old(log) + Waits(polls)
        decreases readyAfter - polls
      {
        log := log + [WaitingForFrontend];
        polls := polls + 1;
        if polls == readyAfter {
          NotifyFrontendReady();
        }
      }
      log := log + [HotwordStarted];
    }
  }
}
