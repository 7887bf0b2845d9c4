# EchoDownloaderBot conversation, modelled in Dafny

EchoDownloaderBot is a Telegram bot. It takes a media link, asks whether
the user wants audio or video, downloads the media with yt-dlp into a
temporary directory, and sends the file back. All of this lives in
`main.py`. This project models the conversation logic there, separated
from the Telegram and yt-dlp calls around it:

- `Strings.dfy`: `str.strip()`, ASCII `str.lower()`, prefix and suffix
  tests, and `str(n)` for the countdown number.
- `Paths.dfy`: `os.path.join` for two components and
  `os.path.splitext`, both for POSIX paths.
- `Download.dfy`: `download_media`. This covers the yt-dlp options
  dictionary (built, then extended in place for audio), the `.mp3` rename
  for audio, and the path or error that the function returns.
- `Conversation.dfy`: the phases `AskLink`, `AskFormat` and `End`, and the
  inbound events `Start`, `Text`, `Callback`, `Cancel` and `Other` (any
  other new message). It
  also holds the routing that the `ConversationHandler` in `main()`
  performs, and what each handler does, as pure functions. The lemmas about
  link acceptance, the countdown, temporary-directory cleanup and
  reachable states are here.
- `Bot.dfy`: a `Session` class for one user's conversation. Its fields
  are the phase, the `url` slot of `context.user_data`, and a trace of
  effects: messages sent, temporary directory created or removed, download
  run. There is one method per handler (`start`, `ask_format`,
  `handle_format_choice`, `cancel`), a `Countdown` loop, and `Step`, which
  routes one update to a handler and stores the phase it returns. Three
  client methods check example conversations, for any accepted or refused
  link, against these contracts.

The environment's choices are inputs to each step (`Env`): the name
`tempfile.mkdtemp` picks, and what `extract_info` plus `prepare_filename`
produced. That is either the prepared file name or the exception text.

Routing follows python-telegram-bot's `ConversationHandler` with
`allow_reentry=True`. The model assumes this dispatch order:

1. The entry point `/start` is tried first, in every phase.
2. Outside a conversation (`End`, which is also the state before the first
   `/start`), no other update is handled.
3. Otherwise the handler for the current phase is tried.
4. Then the `/cancel` fallback.
5. Then the catch-all `MessageHandler(filters.ALL)`, which restarts the
   conversation. It matches only updates that carry a message, so a button
   press in `AskLink` goes unhandled.

Some behaviour of the code may surprise a reader. The model follows the
code in each case:

- `start` never clears the stored `url`, and neither does a finished
  download. Restarting keeps the earlier link in `context.user_data`. The
  lemma `StartReenters` states this.
- `/cancel` outside a conversation is not handled, because it is only a
  fallback, not an entry point. The phase stays `End` anyway
  (`CancelEnds`).
- The lost-context branch of `handle_format_choice` cannot be reached
  through the conversation. Every reachable `AskFormat` state has a stored
  link, and an accepted link is never empty (`ReachableChoiceDownloads`).
  The handler's own contract still covers that branch
  (`LostContextEnds`).
- A button value other than `audio` or `video` would be downloaded with the
  video selector but sent as audio (`UnknownChoiceSentAsAudio`). The bot's
  keyboard offers only those two values.

## Model

| member | source | states |
|---|---|---|
| `Strings.Strip` | main.py:44 | the result is the input with leading and trailing whitespace cut off; what was cut is all whitespace; the result neither starts nor ends with whitespace |
| `Strings.StripOfPadded` | main.py:44 | any text without whitespace at its ends, padded with whitespace on both sides, strips back to exactly that text |
| `Strings.StripIdempotent` | main.py:44 | stripping twice equals stripping once |
| `Strings.StripUnpadded` | main.py:44 | a text that neither starts nor ends with whitespace strips to itself |
| `Strings.Lower` | main.py:45 | same length; every character is lower-cased in place (ASCII) |
| `Strings.LowerStartsWith` | main.py:45 | `lower().startswith(p)` holds exactly when each of the first `|p|` characters lower-cases to `p`'s character |
| `Strings.NatToString` | main.py:82 | `str(n)` is a non-empty run of decimal digits with no leading zero, and the digits denote `n` |
| `Strings.StartsWith` | main.py:45 | definition of `s.startswith(prefix)`: the prefix is no longer than the text and equals its first characters |
| `Paths.Join` | main.py:117 | definition of `os.path.join(a, b)`: an absolute `b` replaces `a`; otherwise `b` is appended with a separator unless `a` is empty or ends in one |
| `Paths.JoinUnder` | main.py:117 | joining a relative component gives a path that starts with the directory and ends with the component, with one separator between them exactly when the directory does not already end in one |
| `Paths.LastIndex` | main.py:141 | `rfind` returns the index of the final occurrence, or -1 when the character is absent |
| `Paths.Splitext` | main.py:141 | stem plus extension is the input; the extension is empty or a dot followed by neither dots nor separators; when there is an extension, the stem's last component is not dots only, so leading dots stay in the stem |
| `Paths.PrefixKeepsName` | main.py:141 | cutting a path after a non-dot character of its last component leaves a named last component |
| `Paths.LeadingDotsNoExtension` | main.py:141 | a last component that is only dots up to its final dot has no extension: the whole name is the stem |
| `Paths.ExampleDotfile` | main.py:141 | `.bashrc` splits into `.bashrc` and an empty extension |
| `Paths.SplitextOfAppended` | main.py:141 | appending an extension to a name whose last component is not all dots makes `splitext` return exactly that stem and extension |
| `Paths.StemKeepsName` | main.py:141 | the stem of a name with a named last component keeps a named last component |
| `Download.ConfiguredFor` | main.py:115-135 | definition of the options dictionary `download_media` hands to yt-dlp, key by key, for a directory and a format |
| `Download.BuildOptions` | main.py:115-135 | the dictionary holds exactly the base keys, plus `postprocessors` if and only if the format is audio; the selector is `bestaudio/best` for audio and `bestvideo+bestaudio/best` otherwise; `outtmpl` is the template joined to the directory; noplaylist and continuedl are set, retries and fragment_retries are 10, socket_timeout is 10, http_chunk_size is 10 MiB, aria2c runs with `-x 16 -k 1M`, quiet is set; audio adds FFmpegExtractAudio to mp3 at quality 192 |
| `Download.ConfiguredForUnique` | main.py:115-135 | the options contract fixes every key: two dictionaries that meet it for the same directory and format are equal |
| `Download.AudioCodecMatchesExtension` | main.py:131-141 | the codec of the audio post-processor is the extension that the returned name is given |
| `Download.AudioFilename` | main.py:140-141 | definition of the audio rename: the `splitext` stem followed by `.mp3` |
| `Download.FinalFilename` | main.py:139-142 | definition of the name returned: the audio rename for `audio`, the prepared name for every other format |
| `Download.AudioFilenameShape` | main.py:140-141 | the audio name ends in `.mp3`; the stem it keeps is a prefix of the prepared name; what was dropped is empty or one extension |
| `Download.AudioFilenameIdempotent` | main.py:141 | renaming an audio name a second time changes nothing when its last component is not all dots |
| `Download.AudioFilenameOfBareDirectory` | main.py:141 | a last component of dots only, such as `a/`, is not stable under the rename: it gives `a/.mp3`, then `a/.mp3.mp3` |
| `Download.AudioFilenameOfTemplate` | main.py:117-141 | a name laid out as `dir/title.ext` by the output template is renamed to `dir/title.mp3`, with the same directory and title |
| `Download.ResultOf` | main.py:137-142 | a path is returned exactly when extraction succeeded; for audio it ends in `.mp3` and its stem prefixes the prepared name; otherwise it is the prepared name; a failure carries the exception text |
| `Download.DownloadMedia` | main.py:110-142 | the options meet the options contract for the directory and format, and the result is the one `ResultOf` states |
| `Conversation.Route` | main.py:148-159 | `/start` reaches `start` from every phase; `ask_format` gets exactly the text messages in `AskLink`; `handle_format_choice` gets exactly the button presses in `AskFormat`; `cancel` gets `/cancel` inside a conversation; the catch-all restarts on every other message inside one; nothing else is handled |
| `Conversation.StateHandlerMatches` | main.py:150-153 | definition of the state handlers: a text message in `AskLink` goes to `ask_format`, a button press in `AskFormat` to `handle_format_choice` |
| `Conversation.IsMessage` | main.py:156 | definition of what `MessageHandler(filters.ALL)` matches: every update that carries a message, so not a button press |
| `Conversation.StartEffects` | main.py:39 | definition of what `start` sends: the greeting reply, and nothing else |
| `Conversation.CancelEffects` | main.py:107 | definition of what `cancel` sends: the goodbye reply, and nothing else |
| `Conversation.DownloadingText` | main.py:71 | definition of the status text `🔄 Downloading your {choice}…` |
| `Conversation.ErrorText` | main.py:98 | definition of the failure text `❌ Error during download: {e}` |
| `Conversation.Tick` | main.py:82 | definition of one countdown step: an `edit_text` of the status message with that step's text |
| `Conversation.FormatChoiceNext` | main.py:66-99 | definition of the phase `handle_format_choice` returns: `End` without a stored link (line 68), `AskLink` after a success (line 94) or a failure (line 99) |
| `Conversation.HasHttpScheme` | main.py:45 | definition of `url.lower().startswith(("http://", "https://"))` |
| `Conversation.IsAcceptedUrl` | main.py:44-45 | definition of the link check: the scheme test applied to the stripped text |
| `Conversation.React` | main.py:37-159 | definition of one update: the handler `Route` picks, with the next phase, the stored link and the effects in order that the handler produces |
| `Conversation.LinkEffects` | main.py:45-57 | definition of the reply to a link: the format keyboard for an accepted link, the validation error otherwise |
| `Conversation.Missing` | main.py:65-66 | definition of `not context.user_data.get('url')`: no stored link or the empty string |
| `Conversation.DownloadStart` | main.py:71-78 | definition of the start of a download: the status edit, `mkdtemp`, then the `download_media` call with the stored link, the choice and that directory |
| `Conversation.MediaFor` | main.py:87-90 | definition of the media reply: `reply_video` when the choice is `video`, `reply_audio` for every other choice |
| `Conversation.DeliveryEffects` | main.py:79-99 | definition of the `try` block after the download and its `except`: the countdown, the file and the prompt on success, the error on failure |
| `Conversation.FormatChoiceEffects` | main.py:60-103 | definition of what `handle_format_choice` does, in order: the lost-context message; or the status, `mkdtemp`, the download, the countdown and the file and the prompt or the error, then `rmtree` |
| `Conversation.TickText` | main.py:82 | definition of one countdown text: prefix, `str(sec)`, `second`, `s` when above one, the ellipsis |
| `Conversation.CountdownFrom` | main.py:81-82 | definition of the countdown from `n` down to 1 |
| `Conversation.HasHttpSchemeIgnoresCase` | main.py:45 | the scheme test accepts exactly the texts that begin with `http://` or `https://`, each letter in either case |
| `Conversation.AcceptIgnoresPadding` | main.py:44-45 | whitespace around a link changes neither acceptance nor the stored text |
| `Conversation.AcceptedLinkPresent` | main.py:45-66 | an accepted link has at least seven characters, so `not url` is false for it |
| `Conversation.LinkAcceptedAsIs` | main.py:44-49 | a text that starts with a scheme and has no whitespace at its ends is accepted and stored unchanged |
| `Conversation.LinkRefused` | main.py:44-47 | a text without whitespace at its ends whose first letter is not `h` or `H` is refused |
| `Conversation.SchemeStartsWithH` | main.py:45 | a text whose first character does not lower-case to `h` has neither scheme |
| `Conversation.ExampleSecureLink` | main.py:44-49 | `https://example.com/v` is accepted and stored as is |
| `Conversation.ExampleUpperCaseLink` | main.py:44-49 | `HTTP://Example.com/a` is accepted and stored with its case kept |
| `Conversation.ExampleFtpLink` | main.py:44-47 | `ftp://x.com/a` is refused |
| `Conversation.StartReenters` | main.py:37-40 | `/start` in every phase sends the greeting, leads to `AskLink` and leaves the stored link as it was |
| `Conversation.CancelEnds` | main.py:105-108 | `/cancel` always leads to `End` and keeps the stored link; inside a conversation the only effect is the goodbye, outside one there is none |
| `Conversation.RejectedLink` | main.py:44-47 | a refused text keeps the phase at `AskLink` and the stored link unchanged, and sends only the validation error |
| `Conversation.AcceptedLink` | main.py:44-58 | an accepted text stores the stripped text in its original case, sends the audio/video keyboard and leads to `AskFormat` |
| `Conversation.LostContextEnds` | main.py:65-68 | a button press with no stored link sends the missing-URL message and leads to `End`, with no temporary directory, no download and no countdown |
| `Conversation.DownloadReturnsToAskLink` | main.py:70-103 | with a stored link, on success and on failure alike: the status message comes first, then the temporary directory, then one `download_media` call with the link, the choice and that directory; the directory's removal comes last; starting with no directory, none exists afterwards; the next phase is `AskLink` |
| `Conversation.SuccessDelivers` | main.py:76-94 | on success the countdown from 5 follows the download, then the file goes out as the chosen media kind under the returned name, then the prompt for the next link, then the cleanup |
| `Conversation.SuccessLayout` | main.py:76-103 | a successful delivery has eleven effects: the five countdown steps at positions 3 to 7, the file at 8, the prompt at 9 and the directory's removal at 10 |
| `Conversation.FailureReports` | main.py:96-103 | on failure the only message after the status is `"❌ Error during download: "` followed by the exception text, then the cleanup; no countdown step appears |
| `Conversation.CountdownAt` | main.py:81-82 | the countdown from `n` has `n` steps, and step `k` shows `n - k` |
| `Conversation.CountdownLength` | main.py:81 | the countdown from `n` has `n` steps |
| `Conversation.CountdownFive` | main.py:81-82 | exactly five status texts are emitted, showing 5, 4, 3, 2, 1 in that order |
| `Conversation.CountdownTexts` | main.py:81-82 | the five status texts are exactly `🚀 Sending your {choice} in 5 seconds…` down to `… in 2 seconds…` and `… in 1 second…`, in that order |
| `Conversation.TickSpelled` | main.py:82 | a count from 1 to 9 shows as its one digit, followed by ` second`, an `s` above one, and the ellipsis |
| `Conversation.TickPlural` | main.py:82 | a step's text ends in `seconds…` exactly when the count is above one, and in ` second…` otherwise |
| `Conversation.TicksDistinct` | main.py:82 | steps with different counts from 1 to 9 have different texts |
| `Conversation.OpenAfter` | main.py:71-103 | definition of the temporary directories that exist after a run of effects: `mkdtemp` adds the directory it names, `rmtree` removes the one it is given |
| `Conversation.OpenAfterAppend` | main.py:71-103 | the directories that exist after two runs of effects are those after the first, carried through the second |
| `Conversation.OpenAfterSends` | main.py:71-103 | messages neither create nor remove a directory |
| `Conversation.TempDirsClosed` | main.py:71-103 | a button press removes the directory `mkdtemp` named and no other: afterwards exactly the directories that existed before remain, less that one; without a stored link, exactly those that existed before |
| `Conversation.TempDirOpenDuringDownload` | main.py:71-103 | while a link is stored, the directory `mkdtemp` named exists at every point from the download call up to its removal, on top of the directories that existed before |
| `Conversation.ReactClosesTempDirs` | main.py:71-103 | after any update only directories that existed before remain, and with a fresh directory name exactly those remain |
| `Conversation.ReactPreservesReachable` | main.py:148-159 | every update preserves two facts: a stored link passed the scheme check, and `AskFormat` has a stored link |
| `Conversation.ReachableChoiceDownloads` | main.py:65-78 | in every reachable `AskFormat` state, a button press downloads the stored link and leads to `AskLink` |
| `Conversation.UnknownChoiceSentAsAudio` | main.py:87-90 | a button value other than `audio` or `video` is sent as audio under the prepared name, unrenamed |
| `Bot.Session.constructor` | main.py:148-149 | a new user is outside any conversation, with no stored link and an empty trace |
| `Bot.Session.HandleStart` | main.py:37-40 | `start` sends the greeting and returns `AskLink` |
| `Bot.Session.HandleLink` | main.py:42-58 | `ask_format` returns `AskFormat` and stores the stripped text if it is accepted; otherwise it returns `AskLink` and keeps the stored link; it sends the keyboard or the error |
| `Bot.Session.Countdown` | main.py:81-83 | the loop appends exactly the countdown from 5 to the trace |
| `Bot.Session.Deliver` | main.py:79-99 | the `try` block after the download and its `except` append exactly the delivery for the result: countdown, file and prompt on success, the error on failure |
| `Bot.Session.HandleFormatChoice` | main.py:60-103 | `handle_format_choice` returns `End` without a link and `AskLink` with one; it appends exactly the effects of the format-choice branch that applies |
| `Bot.Session.HandleCancel` | main.py:105-108 | `cancel` sends the goodbye and returns `End` |
| `Bot.Session.Step` | main.py:148-159 | one routed update: the phase, stored link and trace change as the conversation's transition says; reachability holds, and no temporary directory exists before and after, by name |

## Left out

- Telegram I/O is not modelled. Every outbound call becomes one entry in
  the trace: `reply_text`, `edit_message_text`, `edit_text`,
  `reply_video` and `reply_audio`. `query.answer()` is left out, because
  it sends no message; it only ends the button's loading indicator.
- The yt-dlp calls `extract_info` and `prepare_filename` are foreign
  library calls. Their outcome, a prepared file name or an exception
  message, is an input to each step.
- Whether aria2c is installed is left out. The option is always set, and
  any fallback belongs to yt-dlp.
- `run_in_executor`, the event loop and `asyncio.sleep(1)` between
  countdown steps are concurrency and timing. Updates are taken one at a
  time, as the default non-concurrent dispatch handles them.
- `tempfile.mkdtemp` and `shutil.rmtree` become effects in the trace. The
  directory name is an input. `shutil.rmtree(temp_dir, ignore_errors=True)`
  is always called and never raises, and the model treats the call as
  removing the directory. A removal that fails, which the code silently
  ignores and which leaves the directory on disk, is not modelled.
- Bot.Session.HandleFormatChoice covers only failures of the download
  itself. In the code, an exception from a countdown edit, from opening the
  file or from sending it also reaches the error message. It then comes
  after the countdown steps already sent. Those exceptions come from
  Telegram or the filesystem, which are not modelled.
- Paths follow POSIX `posixpath`. On Windows, `ntpath.join` and
  `ntpath.splitext` also split at `\` and at drive letters such as `C:`,
  which the model does not.
- The token check with `sys.exit`, logging, the `/help` handler and
  `run_polling` are start-up and host wiring.
- `context.user_data` belongs to the user across all chats, while the
  conversation phase is kept per chat and user. The model has one session
  with its own `url` slot.
- Python's `strip()` and `lower()` work on all of Unicode. The model uses
  the ASCII whitespace set of `str.isspace` (tab to carriage return,
  0x1C-0x1F, space) and ASCII case. Non-ASCII whitespace around a link is
  not stripped here.
- Routing is a stated assumption about python-telegram-bot (see above). It
  is not derived from the library. `Other` stands only for new messages.
- Edited messages and channel posts are not modelled. `filters.ALL` and
  `filters.TEXT` also match an edited message, but `start` and
  `ask_format` then read `update.message`, which is empty for an edit, so
  they fail before sending anything. The conversation ignores channel
  posts.
