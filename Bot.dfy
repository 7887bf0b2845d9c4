/** The bot's handlers as methods over one user's conversation: the phase the
    `ConversationHandler` keeps, the `url` slot of `context.user_data`, and
    the trace of everything sent and done. Each handler returns the next
    phase, as the Python handlers do; `Step` routes an update to a handler
    and stores the phase it returns. */
module Bot {
  import opened Wrappers
  import opened Strings
  import opened Download
  import opened Conversation

  class Session {
    var phase: Phase
    var url: Option<string>
    var trace: seq<Effect>

    /** The conversation is in a reachable state and no temporary directory
        still exists after an earlier update. */
    ghost predicate Valid()
      reads this
    {
      Reachable(phase, url) && OpenAfter({}, trace) == {}
    }

    /** A user who has not yet sent `/start`. */
    constructor ()
      ensures Valid()
      ensures phase == End && url == None && trace == []
    {
      phase := End;
      url := None;
      trace := [];
    }

    /** `start`: greet and ask for a link. */
    method HandleStart() returns (next: Phase)
      modifies this`trace
      ensures next == AskLink
      ensures trace == old(trace) + StartEffects()
    {
      trace := trace + [Send(Reply(GreetingText))];
      next := AskLink;
    }

    /** `ask_format`: check the link, store it and offer the two formats. */
    method HandleLink(text: string) returns (next: Phase)
      modifies this`trace, this`url
      ensures next == (if IsAcceptedUrl(text) then AskFormat else AskLink)
      ensures url == (if IsAcceptedUrl(text) then Some(Strip(text)) else old(url))
      ensures trace == old(trace) + LinkEffects(text)
    {
      var link := Strip(text);
      var lowered := Lower(link);
      if !(StartsWith(lowered, "http://") || StartsWith(lowered, "https://")) {
        trace := trace + [Send(Reply(InvalidUrlText))];
        return AskLink;
      }
      url := Some(link);
      trace := trace + [Send(ReplyWithKeyboard(FormatPrompt, FormatKeyboard))];
      next := AskFormat;
    }

    /** The status message counting down from 5 to 1 before the file is
        sent. */
    method Countdown(choice: string)
      modifies this`trace
      ensures trace == old(trace) + CountdownFrom(choice, CountdownStart)
    {
      var sec: nat := CountdownStart;
      while sec > 0
        invariant sec <= CountdownStart
        invariant trace + CountdownFrom(choice, sec) == old(trace) + CountdownFrom(choice, CountdownStart)
      {
        assert CountdownFrom(choice, sec) == [Tick(choice, sec)] + CountdownFrom(choice, sec - 1);
        assert trace + [Tick(choice, sec)] + CountdownFrom(choice, sec - 1) == trace + ([Tick(choice, sec)] + CountdownFrom(choice, sec - 1));
        trace := trace + [Send(Edit(TickText(choice, sec)))];
        sec := sec - 1;
      }
    }

    /** The `try` block after the download, and its `except`: on success the
        countdown, the file as video or audio and the prompt for the next
        link; on failure the error. */
    method Deliver(choice: string, result: DownloadResult)
      modifies this`trace
      ensures trace == old(trace) + DeliveryEffects(choice, result)
    {
      match result {
        case Downloaded(path) =>
          Countdown(choice);
          if choice == VideoChoice {
            trace := trace + [Send(SendVideo(path))];
          } else {
            trace := trace + [Send(SendAudio(path))];
          }
          trace := trace + [Send(Reply(DoneText))];
        case DownloadFailed(msg) =>
          trace := trace + [Send(Reply(ErrorPrefix + msg))];
      }
    }

    /** `handle_format_choice`: with a stored link, announce the download,
        make a temporary directory, run `download_media` in it, then either
        count down, send the file and prompt for the next link, or report
        the error; remove the directory on both paths. */
    method HandleFormatChoice(choice: string, env: Env) returns (next: Phase)
      modifies this`trace
      ensures next == FormatChoiceNext(url)
      ensures trace == old(trace) + FormatChoiceEffects(url, choice, env)
    {
      var link := url;
      if link.None? || link.value == "" {
        trace := trace + [Send(Edit(MissingUrlText))];
        return End;
      }
      ghost var before := trace;
      var tempDir := env.tempDir;
      trace := trace + [Send(Edit(DownloadingText(choice)))];
      trace := trace + [MakeTempDir(tempDir)];
      trace := trace + [RunDownload(Request(link.value, choice, tempDir))];
      ghost var head := DownloadStart(link.value, choice, tempDir);
      assert trace == before + head;
      var opts, result := DownloadMedia(link.value, tempDir, choice, env.extraction);
      Deliver(choice, result);
      ghost var delivery := DeliveryEffects(choice, result);
      assert trace == before + head + delivery;
      trace := trace + [RemoveTempDir(tempDir)];
      ghost var tail := [RemoveTempDir(tempDir)];
      assert FormatChoiceEffects(url, choice, env) == head + delivery + tail;
      AppendAssoc(before, head, delivery, tail);
      next := AskLink;
    }

    /** `cancel`: say goodbye and end the conversation. */
    method HandleCancel() returns (next: Phase)
      modifies this`trace
      ensures next == End
      ensures trace == old(trace) + CancelEffects()
    {
      trace := trace + [Send(Reply(CancelText))];
      next := End;
    }

    /** One update: route it, run the handler and keep the phase it
        returns; an update no handler accepts changes nothing. */
    method Step(e: Event, env: Env)
      requires Valid()
      modifies this
      ensures Valid()
      ensures var r := React(old(phase), old(url), e, env);
        phase == r.next && url == r.url && trace == old(trace) + r.effects
    {
      ghost var r := React(phase, url, e, env);
      ReactPreservesReachable(phase, url, e, env);
      ReactClosesTempDirs({}, phase, url, e, env);
      OpenAfterAppend({}, trace, r.effects);
      var next := phase;
      match Route(phase, e) {
        case StartHandler =>
          assert r == Reaction(AskLink, url, StartEffects());
          next := HandleStart();
        case AskFormatHandler =>
          assert r.next == (if IsAcceptedUrl(e.text) then AskFormat else AskLink);
          assert r.url == (if IsAcceptedUrl(e.text) then Some(Strip(e.text)) else url);
          assert r.effects == LinkEffects(e.text);
          next := HandleLink(e.text);
        case FormatChoiceHandler =>
          assert r == Reaction(FormatChoiceNext(url), url, FormatChoiceEffects(url, e.data, env));
          next := HandleFormatChoice(e.data, env);
        case CancelHandler =>
          assert r == Reaction(End, url, CancelEffects());
          next := HandleCancel();
        case NoHandler =>
          assert r == Reaction(phase, url, []);
          assert trace == trace + [];
      }
      phase := next;
    }
  }

  /** Regrouping the four parts of the trace. As a separate fact it keeps
      the proof of `HandleFormatChoice` small. */
  lemma AppendAssoc(a: seq<Effect>, b: seq<Effect>, c: seq<Effect>, d: seq<Effect>)
    ensures a + b + c + d == a + (b + c + d)
  {
  }

  /** An accepted link, then a button, with a download that succeeds. */
  method DownloadScenario(link: string, choice: string, dir: string, prepared: string)
    requires IsAcceptedUrl(link)
  {
    var s := new Session();
    var env := Env(dir, Extracted(prepared));
    StartReenters(End, None, env);
    s.Step(Start, env);
    assert s.phase == AskLink && s.trace == [Send(Reply(GreetingText))];
    AcceptedLink(None, link, env);
    s.Step(Text(link), env);
    var stored := Strip(link);
    assert s.phase == AskFormat && s.url == Some(stored) && |s.trace| == 2;
    ghost var before := s.trace;
    DownloadReturnsToAskLink(Some(stored), choice, env);
    SuccessLayout(Some(stored), choice, env);
    ghost var effects := React(AskFormat, Some(stored), Callback(choice), env).effects;
    s.Step(Callback(choice), env);
    assert s.phase == AskLink && s.trace == before + effects;
    assert s.trace[3] == MakeTempDir(dir);
    assert s.trace[4] == RunDownload(Request(stored, choice, dir));
    assert s.trace[10] == Send(MediaFor(choice, FinalFilename(choice, prepared)));
    assert s.trace[12] == RemoveTempDir(dir);
  }

  /** A refused link leaves the phase at `AskLink` and stores nothing. */
  method RefusedScenario(link: string, env: Env)
    requires !IsAcceptedUrl(link)
  {
    var s := new Session();
    StartReenters(End, None, env);
    s.Step(Start, env);
    RejectedLink(None, link, env);
    s.Step(Text(link), env);
    assert s.phase == AskLink && s.url == None;
    assert s.trace == [Send(Reply(GreetingText)), Send(Reply(InvalidUrlText))];
  }

  /** A download that fails reports the library's message, returns to
      `AskLink` and removes the temporary directory. */
  method FailureScenario(link: string, choice: string, dir: string, message: string)
    requires IsAcceptedUrl(link)
  {
    var s := new Session();
    var env := Env(dir, ExtractFailed(message));
    StartReenters(End, None, env);
    s.Step(Start, env);
    AcceptedLink(None, link, env);
    s.Step(Text(link), env);
    var stored := Strip(link);
    assert s.url == Some(stored) && |s.trace| == 2;
    ghost var before := s.trace;
    FailureReports(Some(stored), choice, env);
    ghost var effects := React(AskFormat, Some(stored), Callback(choice), env).effects;
    s.Step(Callback(choice), env);
    assert s.phase == AskLink && s.trace == before + effects;
    assert s.trace[5] == Send(Reply(ErrorText(message)));
    assert s.trace[6] == RemoveTempDir(dir);
    assert |s.trace| == 7;
  }
}
