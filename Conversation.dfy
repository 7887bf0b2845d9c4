/** The conversation of `main.py` as pure functions: the phases, the inbound
    events, the routing that the `ConversationHandler` of `main()` performs,
    and, for each handler, the next phase, the stored link and the effects
    it produces in order. The `Bot` module's session object is proved to
    behave as these functions say. */
module Conversation {
  import opened Wrappers
  import opened Strings
  import opened Download

  /** `ASK_LINK`, `ASK_FORMAT` and `ConversationHandler.END`. `End` is also
      where a user is before the first `/start`: after `END` the handler
      forgets the conversation, which is the same as never having had one. */
  datatype Phase = AskLink | AskFormat | End

  /** The updates the bot distinguishes. */
  datatype Event =
    | Start                  // the /start command
    | Text(text: string)     // a text message that is not a command
    | Callback(data: string) // a press of an inline button
    | Cancel                 // the /cancel command
    | Other                  // any other message: another command, a photo, ...

  /** The handler that receives an update, or none. */
  datatype Handler = StartHandler | AskFormatHandler | FormatChoiceHandler | CancelHandler | NoHandler

  /** `MessageHandler(filters.TEXT & ~filters.COMMAND)`, the handler of
      `ASK_LINK`, and `CallbackQueryHandler`, the handler of `ASK_FORMAT`. */
  predicate StateHandlerMatches(p: Phase, e: Event) {
    (p == AskLink && e.Text?) || (p == AskFormat && e.Callback?)
  }

  /** `MessageHandler(filters.ALL)` matches every update that carries a
      message; a button press carries a callback query instead. */
  predicate IsMessage(e: Event) {
    !e.Callback?
  }

  /** The `ConversationHandler` of `main()`: the entry point `/start` is tried
      first in every phase (`allow_reentry=True`); outside a conversation
      nothing else is handled; otherwise the phase's own handler, then
      `/cancel`, then the catch-all that restarts. */
  function Route(p: Phase, e: Event): (h: Handler)
    ensures e.Start? ==> h == StartHandler
    ensures h == StartHandler <==> e.Start? || (p != End && IsMessage(e) && !e.Cancel? && !StateHandlerMatches(p, e))
    ensures h == AskFormatHandler <==> p == AskLink && e.Text?
    ensures h == FormatChoiceHandler <==> p == AskFormat && e.Callback?
    ensures h == CancelHandler <==> p != End && e.Cancel?
    ensures h == NoHandler <==> !e.Start? && (p == End || (p == AskLink && e.Callback?))
  {
    if e.Start? then StartHandler
    else if p == End then NoHandler
    else if StateHandlerMatches(p, e) then (if p == AskLink then AskFormatHandler else FormatChoiceHandler)
    else if e.Cancel? then CancelHandler
    else if IsMessage(e) then StartHandler
    else NoHandler
  }

  // ---------------------------------------------------------------------
  // What the bot sends

  datatype Button = Button(text: string, callbackData: string)

  /** One outbound Telegram call. */
  datatype Outbound =
    | Reply(text: string)                                  // reply_text
    | ReplyWithKeyboard(text: string, keyboard: seq<Button>) // reply_text with an inline keyboard
    | Edit(text: string)                                   // edit_message_text / edit_text
    | SendVideo(path: string)                              // reply_video
    | SendAudio(path: string)                              // reply_audio

  /** The call `download_media(url, temp_dir, choice)`. */
  datatype Request = Request(url: string, fmt: string, dir: string)

  /** Everything a handler does that can be observed, in order. */
  datatype Effect =
    | Send(msg: Outbound)
    | MakeTempDir(dir: string)    // tempfile.mkdtemp()
    | RunDownload(request: Request)
    | RemoveTempDir(dir: string)  // shutil.rmtree(temp_dir, ignore_errors=True)

  /** What the environment decides during one update: the name `mkdtemp`
      picks and what yt-dlp does with the link. */
  datatype Env = Env(tempDir: string, extraction: Extraction)

  const GreetingText := "\U{1F44B} Hi! Send me the link of the video you want to download."
  const InvalidUrlText := "\U{2757}\U{FE0F} Please send a valid URL (must start with http:// or https://)."
  const FormatPrompt := "Great! Do you want audio or video?"
  const FormatKeyboard := [Button("Audio \U{1F3B5}", "audio"), Button("Video \U{1F3A5}", "video")]
  const MissingUrlText := "\U{274C} Something went wrong (missing URL). Please /start again."
  const DoneText := "\U{2705} Done! Send me another link (or /cancel to stop)."
  const ErrorPrefix := "\U{274C} Error during download: "
  const CancelText := "\U{1F44B} Operation cancelled. Use /start to download again."
  const VideoChoice := "video"
  const CountdownStart: nat := 5

  function DownloadingText(choice: string): string {
    "\U{1F504} Downloading your " + choice + "\U{2026}"
  }

  function TickPrefix(choice: string): string {
    "\U{1F680} Sending your " + choice + " in "
  }

  /** The status text of one countdown step. */
  function TickText(choice: string, sec: nat): string {
    TickPrefix(choice) + NatToString(sec) + " second" + (if sec > 1 then "s" else "") + "\U{2026}"
  }

  function ErrorText(message: string): string {
    ErrorPrefix + message
  }

  // ---------------------------------------------------------------------
  // The handlers' effects

  /** What `start` sends: the greeting. */
  function StartEffects(): seq<Effect> {
    [Send(Reply(GreetingText))]
  }

  /** What `cancel` sends: the goodbye. */
  function CancelEffects(): seq<Effect> {
    [Send(Reply(CancelText))]
  }

  /** `url.lower().startswith(("http://", "https://"))`. */
  predicate HasHttpScheme(u: string) {
    StartsWith(Lower(u), "http://") || StartsWith(Lower(u), "https://")
  }

  /** The check `ask_format` applies to the stripped message text. */
  predicate IsAcceptedUrl(text: string) {
    HasHttpScheme(Strip(text))
  }

  function LinkEffects(text: string): seq<Effect> {
    if IsAcceptedUrl(text) then [Send(ReplyWithKeyboard(FormatPrompt, FormatKeyboard))]
    else [Send(Reply(InvalidUrlText))]
  }

  /** `not context.user_data.get('url')`: absent, or the empty string. */
  predicate Missing(u: Option<string>) {
    u.None? || u.value == ""
  }

  function Tick(choice: string, sec: nat): Effect {
    Send(Edit(TickText(choice, sec)))
  }

  /** The countdown from `n` down to 1. */
  function CountdownFrom(choice: string, n: nat): seq<Effect> {
    if n == 0 then [] else [Tick(choice, n)] + CountdownFrom(choice, n - 1)
  }

  function MediaFor(choice: string, path: string): Outbound {
    if choice == VideoChoice then SendVideo(path) else SendAudio(path)
  }

  /** What happens between the download and the cleanup. */
  function DeliveryEffects(choice: string, r: DownloadResult): seq<Effect> {
    match r
    case Downloaded(path) =>
      CountdownFrom(choice, CountdownStart) + [Send(MediaFor(choice, path)), Send(Reply(DoneText))]
    case DownloadFailed(msg) => [Send(Reply(ErrorText(msg)))]
  }

  /** The status message, the temporary directory and the download call. */
  function DownloadStart(url: string, choice: string, dir: string): seq<Effect> {
    [Send(Edit(DownloadingText(choice))), MakeTempDir(dir), RunDownload(Request(url, choice, dir))]
  }

  /** The effects of `handle_format_choice`. */
  function FormatChoiceEffects(u: Option<string>, choice: string, env: Env): seq<Effect> {
    if Missing(u) then [Send(Edit(MissingUrlText))]
    else
      DownloadStart(u.value, choice, env.tempDir)
      + DeliveryEffects(choice, ResultOf(choice, env.extraction))
      + [RemoveTempDir(env.tempDir)]
  }

  function FormatChoiceNext(u: Option<string>): Phase {
    if Missing(u) then End else AskLink
  }

  /** The outcome of one update: the next phase, the stored link and the
      effects. */
  datatype Reaction = Reaction(next: Phase, url: Option<string>, effects: seq<Effect>)

  /** One update handled by the conversation, given the current phase and
      stored link. */
  function React(p: Phase, u: Option<string>, e: Event, env: Env): Reaction {
    match Route(p, e)
    case StartHandler => Reaction(AskLink, u, StartEffects())
    case AskFormatHandler =>
      if IsAcceptedUrl(e.text) then Reaction(AskFormat, Some(Strip(e.text)), LinkEffects(e.text))
      else Reaction(AskLink, u, LinkEffects(e.text))
    case FormatChoiceHandler => Reaction(FormatChoiceNext(u), u, FormatChoiceEffects(u, e.data, env))
    case CancelHandler => Reaction(End, u, CancelEffects())
    case NoHandler => Reaction(p, u, [])
  }

  // ---------------------------------------------------------------------
  // Link acceptance

  /** Case-insensitive prefix match written without `Lower`: each character
      equals the pattern's, or is its upper-case form. */
  predicate MatchesIgnoringCase(s: string, pattern: string) {
    |pattern| <= |s| &&
    forall k :: 0 <= k < |pattern| ==>
      s[k] == pattern[k] || ('a' <= pattern[k] <= 'z' && s[k] as int == pattern[k] as int - 32)
  }

  lemma LowerCharMatches(c: char, p: char)
    requires !('A' <= p <= 'Z')
    ensures LowerChar(c) == p <==> c == p || ('a' <= p <= 'z' && c as int == p as int - 32)
  {
  }

  /** The link check accepts exactly the texts whose stripped form begins
      with `http://` or `https://` in any mix of upper and lower case. */
  lemma HasHttpSchemeIgnoresCase(u: string)
    ensures HasHttpScheme(u) <==> MatchesIgnoringCase(u, "http://") || MatchesIgnoringCase(u, "https://")
  {
    LowerStartsWith(u, "http://");
    LowerStartsWith(u, "https://");
    forall k | 0 <= k < |u| && k < 7 {
      LowerCharMatches(u[k], "http://"[k]);
    }
    forall k | 0 <= k < |u| && k < 8 {
      LowerCharMatches(u[k], "https://"[k]);
    }
  }

  /** Whitespace around a link does not change whether it is accepted, nor
      what is stored. */
  lemma AcceptIgnoresPadding(a: string, link: string, b: string)
    requires AllSpace(a) && AllSpace(b)
    requires link != [] ==> !IsSpace(link[0]) && !IsSpace(link[|link| - 1])
    ensures IsAcceptedUrl(a + link + b) <==> HasHttpScheme(link)
    ensures Strip(a + link + b) == link
  {
    StripOfPadded(a, link, b);
  }

  /** A stored link is never what `handle_format_choice` considers missing. */
  lemma AcceptedLinkPresent(u: string)
    requires HasHttpScheme(u)
    ensures !Missing(Some(u)) && |u| >= 7
  {
  }

  /** A link that starts with the scheme and has no whitespace at either
      end is accepted and stored unchanged. */
  lemma LinkAcceptedAsIs(link: string, scheme: string)
    requires scheme == "http://" || scheme == "https://"
    requires |scheme| <= |link| && forall k :: 0 <= k < |scheme| ==> LowerChar(link[k]) == scheme[k]
    requires !IsSpace(link[|link| - 1])
    ensures IsAcceptedUrl(link) && Strip(link) == link
  {
    assert !IsSpace(link[0]) by {
      assert LowerChar(link[0]) == 'h';
    }
    StripUnpadded(link);
    LowerStartsWith(link, scheme);
  }

  /** A lower-case `https` link is accepted and stored as it is. */
  lemma ExampleSecureLink()
    ensures IsAcceptedUrl("https://example.com/v") && Strip("https://example.com/v") == "https://example.com/v"
  {
    LinkAcceptedAsIs("https://example.com/v", "https://");
  }

  /** Case does not matter, and the stored text keeps its case. */
  lemma ExampleUpperCaseLink()
    ensures IsAcceptedUrl("HTTP://Example.com/a") && Strip("HTTP://Example.com/a") == "HTTP://Example.com/a"
  {
    LinkAcceptedAsIs("HTTP://Example.com/a", "http://");
  }

  /** A text with no whitespace at either end whose first letter is not an
      `h` in either case is refused. */
  lemma LinkRefused(link: string)
    requires |link| > 0 && !IsSpace(link[0]) && !IsSpace(link[|link| - 1])
    requires LowerChar(link[0]) != 'h'
    ensures !IsAcceptedUrl(link)
  {
    StripUnpadded(link);
    SchemeStartsWithH(link);
  }

  /** Both schemes begin with `h`, so a text whose first character does not
      lower-case to `h` has neither. */
  lemma SchemeStartsWithH(u: string)
    requires |u| > 0 && LowerChar(u[0]) != 'h'
    ensures !HasHttpScheme(u)
  {
    var lowered := Lower(u);
    assert lowered[0] != 'h';
    if |lowered| >= 7 {
      assert lowered[..7][0] == lowered[0] && "http://"[0] == 'h';
    }
    if |lowered| >= 8 {
      assert lowered[..8][0] == lowered[0] && "https://"[0] == 'h';
    }
  }

  /** An `ftp` link is refused. */
  lemma ExampleFtpLink()
    ensures !IsAcceptedUrl("ftp://x.com/a")
  {
    LinkRefused("ftp://x.com/a");
  }

  // ---------------------------------------------------------------------
  // The transitions

  /** `/start` in any phase greets, moves to `AskLink` and leaves the stored
      link as it was. */
  lemma StartReenters(p: Phase, u: Option<string>, env: Env)
    ensures React(p, u, Start, env) == Reaction(AskLink, u, [Send(Reply(GreetingText))])
  {
  }

  /** `/cancel` always leaves the conversation at `End`; inside one it says
      goodbye, outside one it is not handled. */
  lemma CancelEnds(p: Phase, u: Option<string>, env: Env)
    ensures React(p, u, Cancel, env).next == End
    ensures React(p, u, Cancel, env).url == u
    ensures React(p, u, Cancel, env).effects == if p == End then [] else [Send(Reply(CancelText))]
  {
  }

  /** A text whose stripped form lacks the scheme is refused: the phase
      stays `AskLink`, the stored link is unchanged and the one reply is the
      validation error. */
  lemma RejectedLink(u: Option<string>, text: string, env: Env)
    requires !IsAcceptedUrl(text)
    ensures React(AskLink, u, Text(text), env) == Reaction(AskLink, u, [Send(Reply(InvalidUrlText))])
  {
  }

  /** An accepted text stores the stripped text, in its original case, and
      offers the audio/video keyboard. */
  lemma AcceptedLink(u: Option<string>, text: string, env: Env)
    requires IsAcceptedUrl(text)
    ensures var r := React(AskLink, u, Text(text), env);
      && r.next == AskFormat
      && r.url == Some(Strip(text))
      && r.effects == [Send(ReplyWithKeyboard(FormatPrompt, FormatKeyboard))]
  {
  }

  /** A button press without a stored link ends the conversation with the
      lost-context message and starts no download. */
  lemma LostContextEnds(u: Option<string>, choice: string, env: Env)
    requires Missing(u)
    ensures React(AskFormat, u, Callback(choice), env) == Reaction(End, u, [Send(Edit(MissingUrlText))])
  {
  }

  /** With a stored link a button press downloads and returns to `AskLink`,
      whatever the outcome: status message, temporary directory, one call of
      `download_media` with the stored link, the choice and that directory,
      and last of all the directory's removal. */
  lemma DownloadReturnsToAskLink(u: Option<string>, choice: string, env: Env)
    requires !Missing(u)
    ensures var r := React(AskFormat, u, Callback(choice), env);
      && r.next == AskLink
      && r.url == u
      && |r.effects| >= 5
      && r.effects[0] == Send(Edit(DownloadingText(choice)))
      && r.effects[1] == MakeTempDir(env.tempDir)
      && r.effects[2] == RunDownload(Request(u.value, choice, env.tempDir))
      && r.effects[|r.effects| - 1] == RemoveTempDir(env.tempDir)
      && OpenAfter({}, r.effects) == {}
  {
    TempDirsClosed({}, u, choice, env);
  }

  /** On success the countdown runs from 5 to 1, then the file goes out as
      the chosen media kind under the name `download_media` reported, then
      the prompt for the next link, then the cleanup. */
  lemma SuccessDelivers(u: Option<string>, choice: string, env: Env)
    requires !Missing(u) && env.extraction.Extracted?
    ensures React(AskFormat, u, Callback(choice), env).effects ==
      [Send(Edit(DownloadingText(choice))), MakeTempDir(env.tempDir),
       RunDownload(Request(u.value, choice, env.tempDir))]
      + CountdownFrom(choice, 5)
      + [Send(MediaFor(choice, FinalFilename(choice, env.extraction.preparedName))),
         Send(Reply(DoneText)), RemoveTempDir(env.tempDir)]
  {
  }

  /** The positions of the successful delivery: eleven effects, the five
      countdown steps at 3 to 7, the file at 8, the prompt at 9 and the
      cleanup at 10. */
  lemma SuccessLayout(u: Option<string>, choice: string, env: Env)
    requires !Missing(u) && env.extraction.Extracted?
    ensures var t := React(AskFormat, u, Callback(choice), env).effects;
      && |t| == 11
      && t[3..8] == CountdownFrom(choice, CountdownStart)
      && t[8] == Send(MediaFor(choice, FinalFilename(choice, env.extraction.preparedName)))
      && t[9] == Send(Reply(DoneText))
      && t[10] == RemoveTempDir(env.tempDir)
  {
    SuccessDelivers(u, choice, env);
    CountdownLength(choice, CountdownStart);
  }

  /** On failure there is no countdown and nothing is sent but the error,
      which quotes the exception's text; then the cleanup. */
  lemma FailureReports(u: Option<string>, choice: string, env: Env)
    requires !Missing(u) && env.extraction.ExtractFailed?
    ensures var r := React(AskFormat, u, Callback(choice), env);
      && r.effects ==
        [Send(Edit(DownloadingText(choice))), MakeTempDir(env.tempDir),
         RunDownload(Request(u.value, choice, env.tempDir)),
         Send(Reply("\U{274C} Error during download: " + env.extraction.message)),
         RemoveTempDir(env.tempDir)]
      && forall sec: nat :: Tick(choice, sec) !in r.effects
  {
    var r := React(AskFormat, u, Callback(choice), env);
    forall sec: nat ensures Tick(choice, sec) !in r.effects {
      assert DownloadingText(choice)[0] != TickText(choice, sec)[0];
    }
  }

  // ---------------------------------------------------------------------
  // The countdown

  /** The countdown from `n` has `n` steps, the `k`-th showing `n - k`. */
  lemma {:induction false} CountdownAt(choice: string, n: nat, k: nat)
    requires k < n
    ensures |CountdownFrom(choice, n)| == n
    ensures CountdownFrom(choice, n)[k] == Tick(choice, n - k)
  {
    CountdownLength(choice, n);
    if k > 0 {
      CountdownAt(choice, n - 1, k - 1);
    }
  }

  lemma {:induction false} CountdownLength(choice: string, n: nat)
    ensures |CountdownFrom(choice, n)| == n
  {
    if n > 0 {
      CountdownLength(choice, n - 1);
    }
  }

  /** The five status texts show 5, 4, 3, 2, 1 in that order. */
  lemma CountdownFive(choice: string)
    ensures |CountdownFrom(choice, CountdownStart)| == 5
    ensures forall k :: 0 <= k < 5 ==> CountdownFrom(choice, CountdownStart)[k] == Tick(choice, 5 - k)
  {
    CountdownLength(choice, 5);
    forall k | 0 <= k < 5 ensures CountdownFrom(choice, CountdownStart)[k] == Tick(choice, 5 - k) {
      CountdownAt(choice, 5, k);
    }
  }

  /** The five status texts, written out. */
  lemma CountdownTexts(choice: string)
    ensures CountdownFrom(choice, CountdownStart) == [
      Send(Edit("\U{1F680} Sending your " + choice + " in 5 seconds\U{2026}")),
      Send(Edit("\U{1F680} Sending your " + choice + " in 4 seconds\U{2026}")),
      Send(Edit("\U{1F680} Sending your " + choice + " in 3 seconds\U{2026}")),
      Send(Edit("\U{1F680} Sending your " + choice + " in 2 seconds\U{2026}")),
      Send(Edit("\U{1F680} Sending your " + choice + " in 1 second\U{2026}"))]
  {
    TickSpelled(choice, 5, " in 5 seconds\U{2026}");
    TickSpelled(choice, 4, " in 4 seconds\U{2026}");
    TickSpelled(choice, 3, " in 3 seconds\U{2026}");
    TickSpelled(choice, 2, " in 2 seconds\U{2026}");
    TickSpelled(choice, 1, " in 1 second\U{2026}");
    CountdownFive(choice);
    var ticks := [Tick(choice, 5), Tick(choice, 4), Tick(choice, 3), Tick(choice, 2), Tick(choice, 1)];
    assert forall k :: 0 <= k < 5 ==> ticks[k] == Tick(choice, 5 - k);
    assert CountdownFrom(choice, CountdownStart) == ticks;
  }

  /** One status text for a count below ten, spelled out. */
  lemma TickSpelled(choice: string, sec: nat, tail: string)
    requires 1 <= sec < 10
    requires tail == " in " + [DigitChar(sec)] + " second" + (if sec > 1 then "s" else "") + "\U{2026}"
    ensures Tick(choice, sec) == Send(Edit("\U{1F680} Sending your " + choice + tail))
  {
    var head := "\U{1F680} Sending your " + choice;
    var digit := [DigitChar(sec)];
    var plural := if sec > 1 then "s" else "";
    assert NatToString(sec) == digit;
    calc {
      TickText(choice, sec);
      (head + " in ") + digit + " second" + plural + "\U{2026}";
      head + (" in " + digit + " second" + plural + "\U{2026}");
    }
  }

  /** The unit is plural for more than one second and singular for one. */
  lemma TickPlural(choice: string, sec: nat)
    ensures EndsWith(TickText(choice, sec), "seconds\U{2026}") <==> sec > 1
    ensures EndsWith(TickText(choice, sec), " second\U{2026}") <==> sec <= 1
  {
    var t := TickText(choice, sec);
    var n := |t|;
    if sec > 1 {
      assert t == (TickPrefix(choice) + NatToString(sec) + " second") + "s\U{2026}";
      assert t[n - 2] == 's';
    } else {
      assert t == (TickPrefix(choice) + NatToString(sec)) + " second\U{2026}";
      assert t[n - 8] == ' ';
    }
  }

  /** Between 1 and 9 seconds, different counts give different texts, so
      every step visibly changes the status message. */
  lemma TicksDistinct(choice: string, s: nat, t: nat)
    requires 1 <= s < 10 && 1 <= t < 10 && s != t
    ensures TickText(choice, s) != TickText(choice, t)
  {
    var i := |TickPrefix(choice)|;
    assert TickText(choice, s)[i] == DigitChar(s);
    assert TickText(choice, t)[i] == DigitChar(t);
  }

  // ---------------------------------------------------------------------
  // Temporary directories

  /** The temporary directories that exist after the effect `e`, given the
      ones that existed before it: `mkdtemp` adds its directory, `rmtree`
      removes the one it is given. */
  function AfterEffect(open: set<string>, e: Effect): set<string> {
    match e
    case MakeTempDir(d) => open + {d}
    case RemoveTempDir(d) => open - {d}
    case _ => open
  }

  /** The temporary directories that exist after the effects `t`, in order. */
  function OpenAfter(open: set<string>, t: seq<Effect>): set<string> {
    if t == [] then open else AfterEffect(OpenAfter(open, t[..|t| - 1]), t[|t| - 1])
  }

  lemma {:induction false} OpenAfterAppend(open: set<string>, a: seq<Effect>, b: seq<Effect>)
    ensures OpenAfter(open, a + b) == OpenAfter(OpenAfter(open, a), b)
  {
    if b == [] {
      assert a + b == a;
    } else {
      assert (a + b)[..|a + b| - 1] == a + b[..|b| - 1];
      assert (a + b)[|a + b| - 1] == b[|b| - 1];
      OpenAfterAppend(open, a, b[..|b| - 1]);
    }
  }

  /** Messages neither make nor remove a directory. */
  lemma {:induction false} OpenAfterSends(open: set<string>, t: seq<Effect>)
    requires forall k :: 0 <= k < |t| ==> t[k].Send?
    ensures OpenAfter(open, t) == open
  {
    if t != [] {
      OpenAfterSends(open, t[..|t| - 1]);
    }
  }

  lemma {:induction false} CountdownOnlySends(choice: string, n: nat)
    ensures forall k :: 0 <= k < |CountdownFrom(choice, n)| ==> CountdownFrom(choice, n)[k].Send?
  {
    if n > 0 {
      CountdownOnlySends(choice, n - 1);
    }
  }

  lemma DeliveryOnlySends(choice: string, r: DownloadResult)
    ensures forall k :: 0 <= k < |DeliveryEffects(choice, r)| ==> DeliveryEffects(choice, r)[k].Send?
  {
    CountdownOnlySends(choice, CountdownStart);
  }

  /** The effects of a button press with a stored link, in three parts. */
  lemma FormatChoiceParts(u: Option<string>, choice: string, env: Env)
    requires !Missing(u)
    ensures FormatChoiceEffects(u, choice, env) ==
      DownloadStart(u.value, choice, env.tempDir)
      + DeliveryEffects(choice, ResultOf(choice, env.extraction))
      + [RemoveTempDir(env.tempDir)]
  {
  }

  lemma OpenAfterDownloadStart(open: set<string>, url: string, choice: string, d: string)
    ensures OpenAfter(open, DownloadStart(url, choice, d)[..2]) == open + {d}
    ensures OpenAfter(open, DownloadStart(url, choice, d)) == open + {d}
  {
    var head := DownloadStart(url, choice, d);
    var h1 := [Send(Edit(DownloadingText(choice)))];
    var h2 := h1 + [MakeTempDir(d)];
    assert h1[..0] == [] && h2[..1] == h1 && head[..2] == h2 && head[..|head| - 1] == h2;
    assert OpenAfter(open, h1) == open;
    assert OpenAfter(open, h2) == open + {d};
  }

  /** A button press removes the directory it made and no other: after it
      exactly the directories that existed before remain, less the one
      `mkdtemp` named. */
  lemma TempDirsClosed(open: set<string>, u: Option<string>, choice: string, env: Env)
    ensures OpenAfter(open, FormatChoiceEffects(u, choice, env)) ==
      if Missing(u) then open else open - {env.tempDir}
  {
    var t := FormatChoiceEffects(u, choice, env);
    if !Missing(u) {
      var d := env.tempDir;
      var head := DownloadStart(u.value, choice, d);
      var delivery := DeliveryEffects(choice, ResultOf(choice, env.extraction));
      var tail := [RemoveTempDir(d)];
      FormatChoiceParts(u, choice, env);
      OpenAfterDownloadStart(open, u.value, choice, d);
      DeliveryOnlySends(choice, ResultOf(choice, env.extraction));
      OpenAfterAppend(open, head + delivery, tail);
      OpenAfterAppend(open, head, delivery);
      OpenAfterSends(open + {d}, delivery);
      assert tail[..0] == [];
    } else {
      assert t[..0] == [];
    }
  }

  /** The directory `mkdtemp` named exists from the download call until its
      removal, so the download and every message about it happen while it
      exists. */
  lemma TempDirOpenDuringDownload(open: set<string>, u: Option<string>, choice: string, env: Env)
    requires !Missing(u)
    ensures var t := FormatChoiceEffects(u, choice, env);
      forall k :: 2 <= k < |t| ==> OpenAfter(open, t[..k]) == open + {env.tempDir}
  {
    var t := FormatChoiceEffects(u, choice, env);
    var d := env.tempDir;
    var head := DownloadStart(u.value, choice, d);
    var delivery := DeliveryEffects(choice, ResultOf(choice, env.extraction));
    FormatChoiceParts(u, choice, env);
    OpenAfterDownloadStart(open, u.value, choice, d);
    DeliveryOnlySends(choice, ResultOf(choice, env.extraction));
    forall k | 2 <= k < |t| ensures OpenAfter(open, t[..k]) == open + {d} {
      if k == 2 {
        assert t[..2] == head[..2];
      } else {
        var j := k - 3;
        assert t[..k] == head + delivery[..j];
        OpenAfterAppend(open, head, delivery[..j]);
        OpenAfterSends(open + {d}, delivery[..j]);
      }
    }
  }

  /** No update leaves a temporary directory behind: what exists afterwards
      existed before, and with a fresh directory name nothing changes. */
  lemma ReactClosesTempDirs(open: set<string>, p: Phase, u: Option<string>, e: Event, env: Env)
    ensures OpenAfter(open, React(p, u, e, env).effects) <= open
    ensures env.tempDir !in open ==> OpenAfter(open, React(p, u, e, env).effects) == open
  {
    var r := React(p, u, e, env);
    match Route(p, e)
    case FormatChoiceHandler =>
      assert r.effects == FormatChoiceEffects(u, e.data, env);
      TempDirsClosed(open, u, e.data, env);
    case StartHandler =>
      assert r.effects == StartEffects();
      OpenAfterSends(open, StartEffects());
    case CancelHandler =>
      assert r.effects == CancelEffects();
      OpenAfterSends(open, CancelEffects());
    case AskFormatHandler =>
      assert r.effects == LinkEffects(e.text);
      OpenAfterSends(open, LinkEffects(e.text));
    case NoHandler =>
      assert r.effects == [];
  }

  // ---------------------------------------------------------------------
  // Reachable states

  /** What holds of every state the bot reaches from its start: a stored
      link passed the check, and in `AskFormat` a link is stored. */
  predicate Reachable(p: Phase, u: Option<string>) {
    (u.Some? ==> HasHttpScheme(u.value)) && (p == AskFormat ==> u.Some?)
  }

  lemma ReactPreservesReachable(p: Phase, u: Option<string>, e: Event, env: Env)
    requires Reachable(p, u)
    ensures Reachable(React(p, u, e, env).next, React(p, u, e, env).url)
  {
  }

  /** In a reachable state a button press always finds its link: the
      lost-context branch cannot be taken through the conversation. */
  lemma ReachableChoiceDownloads(u: Option<string>, choice: string, env: Env)
    requires Reachable(AskFormat, u)
    ensures React(AskFormat, u, Callback(choice), env).next == AskLink
    ensures React(AskFormat, u, Callback(choice), env).effects[2] == RunDownload(Request(u.value, choice, env.tempDir))
  {
    AcceptedLinkPresent(u.value);
  }

  /** A button value other than `audio` or `video` is downloaded with the
      video selector but delivered as audio. The bot's keyboard offers only
      the two. */
  lemma UnknownChoiceSentAsAudio(choice: string, path: string)
    requires choice != AudioFormat && choice != VideoChoice
    ensures MediaFor(choice, path) == SendAudio(path)
    ensures FinalFilename(choice, path) == path
  {
  }
}
