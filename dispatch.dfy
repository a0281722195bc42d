/**
 * The command chain of the assistant's `main` loop (AI.py): which branch a
 * spoken query takes, tried in the order the source lists them.
 */
module Dispatch {
  import opened Text

  // ------------------------------------------------------------- dispatch

  /** The branches of the command chain in `main`, in the order they are tried. */
  datatype Branch =
    | Greet | HearMe | SetName | SetNickname | RememberFact | Wikipedia | Weather
    | OpenYouTube | OpenGoogle | OpenGmail | OpenStackOverflow | PlaySong | PauseSong
    | ResumeSong | TellTime | OpenApp | ShiftTo | CloseIt | CloseApp | FollowSteps
    | InAppAction | TellMeAbout | Shutdown | Restart | LogOff | LockSystem | WifiOff
    | WifiOn | Screenshot | Battery | SetVolumeTo | VolumeUp | VolumeDown | Mute | Unmute
    | SetBrightness | BrightnessUp | BrightnessDown | NotifyMe | Notifications | Quit
    | Learned   // the final else: look up or learn a response
    | NoWord    // `query.lower().split()[0]` raises IndexError, which main does not catch

  const GREETINGS: seq<string> := ["hi", "hello", "hey", "good morning", "good evening"]

  /** `[g.split()[0] for g in greetings]`, as GreetingHead shows. */
  const GREETING_HEADS: seq<string> := ["hi", "hello", "hey", "good", "good"]

  lemma GreetingHead(k: nat)
    requires k < |GREETINGS|
    ensures |GREETING_HEADS| == |GREETINGS|
    ensures Split(GREETINGS[k]) != [] && Split(GREETINGS[k])[0] == GREETING_HEADS[k]
  {
    if k < 3 {
      SplitJoinSpace([GREETINGS[k]]);
    } else {
      WordOf("good", GREETINGS[k][4..]);
      assert GREETINGS[k] == "good" + GREETINGS[k][4..];
    }
  }

  /** The branch `main` takes for a query: the first test of the elif chain that holds. */
  function Classify(query: string): Branch {
    var words := Split(Lower(query));
    if words == [] then NoWord
    else if words[0] in GREETING_HEADS then Greet
    else Command(query)
  }

  /** The elif chain after the greeting test, in the order of AI.py lines 819-1228; the final else is Learned. */
  function Command(query: string): (b: Branch)
    ensures b != Greet && b != NoWord
  {
    if Contains(query, "can you hear me") then HearMe
    else if Contains(query, "my name is") then SetName
    else if Contains(query, "call me") then SetNickname
    else if "remember that" <= query then RememberFact
    else if Contains(query, "wikipedia") then Wikipedia
    else if Contains(query, "weather") then Weather
    else if Contains(query, "open youtube") then OpenYouTube
    else if Contains(query, "open google") then OpenGoogle
    else if Contains(query, "open gmail") then OpenGmail
    else if Contains(query, "open stackoverflow") then OpenStackOverflow
    else if "play " <= query then PlaySong
    else if AnyIn(["pause song", "pause music"], query) then PauseSong
    else if AnyIn(["resume", "resume song"], query) then ResumeSong
    else if Contains(query, "the time") then TellTime
    else if "open " <= query then OpenApp
    else if "shift to " <= query then ShiftTo
    else if query == "close it" then CloseIt
    else if "close " <= query then CloseApp
    else if AnyIn(["follow the steps", "follow my steps", "follow my commands",
                   "follow my instructions", "enter to the screen", "check screen"], query) then FollowSteps
    else if AnyIn(["scroll down", "scroll up", "click", "type", "search", "click"], query) then InAppAction
    else if "tell me about" <= query then TellMeAbout
    else SystemCommand(query)
  }

  /** The rest of the chain: system, volume, brightness, notifications and quit. */
  function SystemCommand(query: string): (b: Branch)
    ensures b != Greet && b != NoWord
  {
    if Contains(query, "shutdown") then Shutdown
    else if Contains(query, "restart") then Restart
    else if AnyIn(["log off", "sign out"], query) then LogOff
    else if AnyIn(["lock system", "lock computer"], query) then LockSystem
    else if Contains(query, "off wi-fi") then WifiOff
    else if Contains(query, "on wi-fi") then WifiOn
    else if Contains(query, "screenshot") then Screenshot
    else if AnyIn(["battery", "power"], query) then Battery
    else if Contains(query, "set volume") then SetVolumeTo
    else if Contains(query, "increase volume") then VolumeUp
    else if Contains(query, "decrease volume") then VolumeDown
    else if Contains(query, "mute") then Mute
    else if Contains(query, "unmute") then Unmute
    else if Contains(query, "set brightness into") then SetBrightness
    else if Contains(query, "increase brightness") then BrightnessUp
    else if Contains(query, "decrease brightness") then BrightnessDown
    else if Contains(query, "notify me") then NotifyMe
    else if AnyIn(["notification", "notifications", "message", "messages"], query) then Notifications
    else if AnyIn(["quit", "exit", "goodbye", "stop", "get out", "leave"], query) then Quit
    else Learned
  }

  /**
   * A query is greeted exactly when its lowered first word is hi, hello, hey
   * or good, whatever follows ("good night" and "hey play music" included).
   */
  lemma GreetingFirst(query: string)
    ensures Classify(query) == Greet
        <==> Split(Lower(query)) != [] && Split(Lower(query))[0] in ["hi", "hello", "hey", "good"]
  {
  }

  /** Every query that mentions "unmute" also mentions "mute", which the chain checks first. */
  lemma UnmuteUnreachable(query: string)
    ensures Classify(query) != Unmute
  {
    CommandUnmuteUnreachable(query);
  }

  lemma CommandUnmuteUnreachable(query: string)
    ensures Command(query) != Unmute
  {
    SystemUnmuteUnreachable(query);
  }

  lemma SystemUnmuteUnreachable(query: string)
    ensures SystemCommand(query) != Unmute
  {
    if Contains(query, "unmute") {
      ContainsWithin(query, "unmute", "mute");
    }
  }
}
