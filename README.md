# TalkyTalky in Dafny

TalkyTalky is a voice chat bot with an animated avatar. It is built as five services that
talk over local TCP sockets:

- speech-to-text: Whisper turns a WAV file into text;
- language model: GPT4All answers inside one chat session;
- text-to-speech: the pyttsx3 or edge-tts engine reads text aloud;
- action: it drives the avatar;
- OpenSeeFace: it receives the avatar's animation frames over UDP.

A front end records the user and chains the services. There are three front ends: the
command line of `app-cli.py`, the CLI/TUI of `app.py`, and the terminal UI of `app-tui.py`.
The action server keeps the actor's state, IDLE or SPEAKING, in step with the reading. A
daemon thread streams the current state's animation frames. Two packet tools record and
replay the animation frames.

This project models the rules around the sockets, the audio and the ML calls, and proves
what they promise:

- the connection life cycle;
- the request/reply loops of the services;
- the two-phase acknowledgement of the text-to-speech service;
- the actor's state machine and its frame daemon;
- the 1785-byte frame format;
- the front ends' turn logic and flags.

Sockets are message queues with a wire log: class `Net.Socket`, whose `pending` holds what
the peer will send and whose `io` holds what this end received and sent. The ML and TTS
engines are function values. The daemon thread is stepped against the sequence of states its
reads observe.

Modules, one per component:

- `Wrappers`: Option and Result.
- `Text`: Python's `str.strip()`.
- `Frames`: the 1785-byte frame format.
- `Net`: sockets and the request/reply loop.
- `Base`: `service/base.py`.
- `SpeechToText`, `LanguageModel` and `TextToSpeech`: the three capability services.
- `Actions`: the `Action` enum and the frame loader.
- `ActionService`: `service/action.py`.
- `FrameDaemon`: the animation thread, the same in all three action servers.
- `LegacyAction`: `backend_openseeface.py` and `backends/action_server.py`.
- `PacketTools`: the two packet tools.
- `Frontend`: `app-cli.py` and the CLI of `app.py`.
- `Tui`: `app-tui.py` and the record buttons of `app.py`.

In the voice loops of `app-cli.py`, `app.py` and `app-tui.py`, the `[EMPTY SPEECH]`
transcript is replaced by a canned apology. That apology is still handed to `react_to`, so the
avatar reads it aloud. The record buttons of `app.py`'s TUI make no apology: the transcript,
sentinel included, goes into the input box and from there to the language model.

## Model

| member | source | states |
|---|---|---|
| Frames.ReadAt | service/action.py:114 | `fp.read(1785)` returns at most that many bytes, the next slice of the file from the position, and is empty exactly at end of file |
| Frames.FlattenChunks | service/action.py:113-118 | the frames cut from a file, laid end to end, are the file's bytes |
| Frames.ChunksWellChunked | service/action.py:113-118 | every frame cut from a file is non-empty and at most 1785 bytes, and all but the last are exactly 1785 |
| Frames.ChunksOfFlatten | tools/openseeface_play_packet.py:11-17 | any frame list of that shape is the cutting of its own concatenation, so the cutting is the only one with both properties |
| Frames.FlattenAllFullLength | tool/openseeface_record_packet.py:21-22 | full frames concatenate to exactly 1785 bytes per frame |
| Frames.ReadFrames | service/action.py:109-117 | the read-until-empty loop returns frames that cover the file exactly, each within the frame size, and equal to the reference cutting |
| Actions.Parse | service/action.py:104-105 | a file name gives an action exactly when it equals that action's value, `idle` or `speaking` |
| Actions.LoadedIff | service/action.py:96-107 | an action is loaded exactly when the listing has a regular file named after it; its frames are those of the last such file; other names and directories are skipped |
| Actions.LoadedFramesCoverFile | service/action.py:109-118 | the frames loaded for an action concatenate to its file's bytes, each within 1785 bytes and all but the last full |
| Actions.InitActions | service/action.py:94-119 | `_init_actions` on a directory listing returns exactly the map the loading rule defines |
| Net.ServedAt | service/speech2text.py:43-54 | a request/reply server never pipelines: the k-th reply goes out right after the k-th request and before the next one is read |
| Net.ServedTraffic | service/language_model.py:32-40 | such a server receives every request once, in order, and sends one reply per request |
| Net.Serve | service/speech2text.py:41-54 | the receive-and-answer loop appends request, reply, request, reply... to the wire log, drains the queue and stops when the peer is silent; unconnected, it fails at once and changes nothing |
| Base.TriesRound | service/base.py:34-36 | every attempt before the first success is logged as a failed round: the attempt, `Retry=i+1/retry`, one sleep of `wait_time` |
| Base.TriesEnd | service/base.py:37-40 | after the failed rounds the log ends with the attempt and "Connected to server", or with "Failed to connect to server" when none succeeded |
| Base.ConnectAttempts | service/base.py:30-33 | `connect` makes at most `retry` attempts and stops at the first success: first success index + 1, or all `retry` |
| Base.ConnectOutcomeLogged | service/base.py:37-40 | the last log line is "Connected" exactly when some attempt succeeds, and "Failed" exactly when all fail |
| Base.ConnectWithoutRetries | service/base.py:31 | with `retry = 0` nothing is attempted and only the failure is logged |
| Base.ClientBase.constructor | service/base.py:19-24 | a client starts with its address and an unconnected socket with no traffic |
| Base.ClientBase.Connect | service/base.py:30-40 | the log gains exactly the connection log; the socket is connected exactly when some attempt succeeds (or it already was); a failure is not raised |
| Base.ClientBase.Ask | service/language_model.py:12-15 | a client's request sends the message once and returns the one reply received, unchanged; unconnected, nothing is sent |
| Base.ServerBase.constructor | service/base.py:47-54 | the server addresses are set; server socket, client socket and client address are None, and nothing is bound yet |
| Base.ServerBase.Connect | service/base.py:62-76 | binds once; polls until the first ready round; accepts exactly one fresh connected peer and records its address; with no ready round the peer is unchanged |
| Base.ServerBase.Run | service/base.py:78-79 | the base `run` changes nothing |
| Text.StripIsInfix | service/speech2text.py:59 | `strip()` keeps one contiguous middle part and removes only white space on either side |
| Text.StripIsStripped | service/language_model.py:39 | the result of `strip()` has no white space at either end |
| Text.StripUnique | service/speech2text.py:59 | any cut of white space off both ends that leaves non-space at both ends is `strip()`'s result |
| Text.StripEmptyIffAllSpace | service/speech2text.py:62 | `strip()` gives the empty string exactly when the text is all white space |
| Text.StripIdempotent | service/language_model.py:34 | stripping twice is stripping once |
| SpeechToText.JoinInOrder | service/speech2text.py:59 | each segment's text appears in the joined text right after the texts of the segments before it |
| SpeechToText.Transcript | service/speech2text.py:56-65 | a transcript is never empty and has no white space at either end |
| SpeechToText.TranscriptOfJoin | service/speech2text.py:59-63 | the transcript is the sentinel when the joined text is all white space, otherwise the joined text with only the white space at its ends cut off |
| SpeechToText.TranscriptSentinel | service/speech2text.py:62-63 | the transcript is `[EMPTY SPEECH]` exactly when nothing but white space was said, or the speech itself stripped to that text |
| SpeechToText.TranscriptIdempotent | service/speech2text.py:56-65 | transcribing a transcript again gives the same transcript |
| SpeechToText.RunTraffic | service/speech2text.py:41-54 | every path is received once, in order, and answered with its own non-empty transcript before the next path is read; empty messages are not filtered |
| SpeechToText.Speech2TextServer.constructor | service/speech2text.py:19-24 | the server starts unbound and unconnected, with the given model |
| SpeechToText.Speech2TextServer.Run | service/speech2text.py:41-54 | the wire log gains the served log of all pending paths with their transcripts; without a peer the first `recv` fails |
| SpeechToText.Speech2TextClient.constructor | service/speech2text.py:6-10 | the client starts unconnected, with no traffic |
| SpeechToText.Speech2TextClient.GetText | service/speech2text.py:12-15 | `get_text` sends the path once and returns the one reply unchanged |
| LanguageModel.Prompts | service/language_model.py:33-34 | one prompt per message received, in order |
| LanguageModel.PromptsAt | service/language_model.py:33-34 | the k-th prompt is the k-th message stripped |
| LanguageModel.BlankMessageReachesModel | service/language_model.py:33-38 | there is no empty filter: a message of white space only reaches the model as the empty prompt |
| LanguageModel.RunTraffic | service/language_model.py:29-40 | every message is received once and answered, before the next is read, with the model's stripped reply to the stripped message in the session of the earlier ones |
| LanguageModel.SessionPrompts | service/language_model.py:30-38 | the chat session holds the stripped messages, in order |
| LanguageModel.LanguageModelServer.constructor | service/language_model.py:19-23 | the server starts unbound and unconnected, with the given model |
| LanguageModel.LanguageModelServer.Run | service/language_model.py:29-40 | the wire log gains the served log of all pending messages with their replies; without a peer the first `recv` fails |
| LanguageModel.LanguageModelClient.constructor | service/language_model.py:6-10 | the client starts unconnected, with no traffic |
| LanguageModel.LanguageModelClient.GetAnswer | service/language_model.py:12-15 | `get_answer` sends the prompt once and returns the one reply unchanged |
| TextToSpeech.FinishAck | service/text2speech.py:102 | the second ack differs from the first; it is `[STOP READING]` exactly for the edge-tts server, `[FINISH READING]` otherwise |
| TextToSpeech.HandlingOrder | service/text2speech.py:45-104 | every server class sends exactly two acks per text, the start ack first; pyttsx3 speaks strictly between them; edge-tts synthesises the whole text before the start ack and plays it between them |
| TextToSpeech.ReadingAt | service/text2speech.py:35-43 | acks never interleave across texts: each text is followed by its own start and finish ack before the next is read |
| TextToSpeech.ReadingTraffic | service/text2speech.py:35-43 | every text is received once, empty ones included, and two acks are sent per text |
| TextToSpeech.Text2SpeechServer.constructor | service/text2speech.py:28-32 | the server starts unbound and unconnected, with its engine and voice, and an empty log |
| TextToSpeech.Text2SpeechServer.SendLogged | service/text2speech.py:47-48 | sending an ack puts it on the wire and in the server's log |
| TextToSpeech.Text2SpeechServer.TextToSpeech | service/text2speech.py:45-104 | one request sends the start ack and the engine's finish ack, and logs the engine's speaking, synthesis and playback in order |
| TextToSpeech.Text2SpeechServer.EdgeSynthesizeAsWritten | service/text2speech.py:84-91 | the edge-tts synthesis as written raises exactly when it runs off Windows after an earlier request closed the event loop |
| TextToSpeech.Text2SpeechServer.Run | service/text2speech.py:35-43 | the wire log gains each pending text and its two acks; the log gains each text with its handling; without a peer the first `recv` fails; for edge-tts off Windows this is the corrected synthesis of the Findings row, the same path as `TextToSpeech` |
| TextToSpeech.EdgeSecondRequestAsWritten | service/text2speech.py:84-91 | with two requests to an edge-tts server off Windows, the first is synthesised and the second raises |
| TextToSpeech.Text2SpeechClient.constructor | service/text2speech.py:13-17 | the client starts unconnected, with no traffic |
| TextToSpeech.Text2SpeechClient.ReadAloudStart | service/text2speech.py:19-21 | the first step of `read_aloud` sends the text once and yields the first message received |
| TextToSpeech.Text2SpeechClient.ReadAloudFinish | service/text2speech.py:22-23 | the second step sends nothing and yields the next message received |
| ActionService.RoundClient | service/action.py:81-91 | per message, the front end is answered with `[ACTION DONE]` only when the message was non-empty and read to the end; the loop goes on exactly then or for an empty message |
| ActionService.RoundTts | service/action.py:81-87 | the text-to-speech service gets a non-empty message once and an empty one never; acks are read in order |
| ActionService.RoundStates | service/action.py:84-88 | per message, one state per ack read: SPEAKING after the first, IDLE after the second; it stays SPEAKING only when the second ack never came |
| ActionService.ActingReadsInOrder | service/action.py:77-79 | every message of the front end is read once, in order, until the queue runs out or the reading fails |
| ActionService.ActingForwards | service/action.py:81-84 | exactly the non-empty messages read go to the text-to-speech service, in order |
| ActionService.ActingAnswers | service/action.py:90-91 | the only reply is `[ACTION DONE]`, once per non-empty message, except the one whose reading failed |
| ActionService.ActingAcks | service/action.py:84-87 | every ack is read once, in order, and nothing else is read from the text-to-speech service |
| ActionService.ActingStates | service/action.py:84-88 | the states alternate SPEAKING, IDLE, ...; one per ack; one reply per IDLE; it ends SPEAKING only when the service fell silent mid-reading |
| ActionService.CompleteRun | service/action.py:77-92 | when the front end stops sending, every message was read, every non-empty one was read aloud and answered, there are two states per reading, and the last state is IDLE |
| ActionService.ActionServer.constructor | service/action.py:32-56 | the server starts with `actor_state` IDLE, the frames of its action directory loaded, the daemon not started, and unconnected sockets |
| ActionService.ActionServer.Connect | service/action.py:66-68 | accepts the front end as `ServerBase.connect` does, then connects the text-to-speech client with the default retries |
| ActionService.ActionServer.SetState | service/action.py:86 | assigning `actor_state` records the new state |
| ActionService.ActionServer.ActOut | service/action.py:81-91 | handling one message gives that round's traffic, states and halt, and leaves IDLE unless only the first ack came |
| ActionService.ActionServer.Step | service/action.py:78-91 | one pass of the loop: a failed `recv` or reading ends the run as a whole; otherwise the rest of the run continues on the remaining messages |
| ActionService.ActionServer.Communicate | service/action.py:77-91 | the loop's traffic on both sockets and its states are exactly those of the run on the pending messages and acks |
| ActionService.ActionServer.Run | service/action.py:70-91 | `run` starts the daemon, then acts out every message; without a connected front end it fails at the first `recv` and changes no state |
| ActionService.ActionClient.constructor | service/action.py:16-20 | the client starts unconnected, with no traffic |
| ActionService.ActionClient.ReactTo | service/action.py:22-24 | `react_to` sends the sentence once and drops the one reply |
| FrameDaemon.StreamOf | service/action.py:127-133 | the inner loop streams the given state and reads only the observations it consumed |
| FrameDaemon.PassAt | service/action.py:125-134 | a pass that streams, or finds the state changed between its two checks, moves past at least one observation |
| FrameDaemon.PassSendsPrefix | service/action.py:125-133 | a pass sends an in-order prefix, from frame 0, of the frames of the state found at its start (SPEAKING only when IDLE did not match); the check before every sent frame saw that state |
| FrameDaemon.AbandonOnChange | service/action.py:127-129 | a pass stops at the first check that sees another state, which is its last read, and sends no further frame; a completed pass sent the whole sequence |
| FrameDaemon.DaemonPasses | service/action.py:124-134 | after each pass the daemon starts over with a fresh pass from the next observation |
| FrameDaemon.RestartAtFirstFrame | service/action.py:124-134 | after an abandoned sequence, the next pass streams the new state from its first frame |
| FrameDaemon.SteadyStateSendsAll | service/action.py:125-134 | while the state holds, a pass sends the whole sequence and the next pass starts right after, so the animation loops |
| FrameDaemon.BothLoadedStaysAlive | service/action.py:127 | with frames loaded for both states the thread never dies |
| FrameDaemon.MissingStateStops | service/action.py:127 | a state without a loaded action file ends the thread with a KeyError, and nothing more is sent |
| FrameDaemon.FrameDaemon.constructor | service/action.py:122-123 | the daemon starts running, with nothing sent |
| FrameDaemon.FrameDaemon.Stream | service/action.py:127-133 | the loop over a state's frames sends exactly the frames of the reference pass |
| FrameDaemon.FrameDaemon.OnePass | service/action.py:125-134 | one pass of `for action in Action` checks IDLE, then SPEAKING, and streams the first that matches |
| FrameDaemon.FrameDaemon.Run | service/action.py:122-134 | the thread sends exactly the reference daemon's frames for the observations, and is alive exactly when it is |
| LegacyAction.ListenedTraffic | backend_openseeface.py:94-103 | the older servers are one way: every message is received in order and nothing is ever sent back |
| LegacyAction.SpeakingRounds | backend_openseeface.py:98-103 | each non-empty message, and no empty one, is spoken once, in order, between SPEAKING and IDLE; nothing else happens (the same in backends/action_server.py:59-64) |
| LegacyAction.SpeakingEndsIdle | backends/action_server.py:59-64 | after any non-empty message the actor is IDLE again |
| LegacyAction.OneWayActionServer.constructor | backend_openseeface.py:20-45 | the server starts with `actor_state` IDLE, its frames loaded from `actions/openseeface/`, and no peer |
| LegacyAction.OneWayActionServer.Connect | backend_openseeface.py:57-71 | binds once, polls until ready, and accepts exactly one peer, as `ServerBase.connect` does |
| LegacyAction.OneWayActionServer.SetState | backend_openseeface.py:101 | assigning `actor_state` records it as an event |
| LegacyAction.OneWayActionServer.Handle | backend_openseeface.py:98-103 | an empty message changes nothing; any other sets SPEAKING, is spoken, then sets IDLE |
| LegacyAction.OneWayActionServer.Run | backends/action_server.py:48-64 | `run` starts the daemon, then receives every message and speaks the non-empty ones, sending nothing; it ends IDLE once anything was spoken |
| PacketTools.Received | tool/openseeface_record_packet.py:18 | `recvfrom(2048)` keeps at most 2048 bytes of a datagram, a prefix of it, all of a shorter one |
| PacketTools.KeptIffFullFrame | tool/openseeface_record_packet.py:21 | a datagram is written exactly when it is 1785 bytes long, and then unchanged |
| PacketTools.AcceptedFilters | tool/openseeface_record_packet.py:21-22 | the kept datagrams are full frames, each one received; every received datagram of 1785 bytes is kept; others are dropped |
| PacketTools.Record | tool/openseeface_record_packet.py:14-22 | the file is the kept datagrams in arrival order, and its length is a multiple of 1785 |
| PacketTools.RecordThenLoad | tools/openseeface_play_packet.py:11-17 | a recorded file cuts back into exactly the datagrams the recorder kept |
| PacketTools.CycleLength | tools/openseeface_play_packet.py:22-28 | each round sends every frame once |
| PacketTools.CyclePeriodic | tools/openseeface_play_packet.py:22-28 | the sent stream starts with the file's frames in order and repeats with the frame count as period |
| PacketTools.SendCycle | tools/openseeface_play_packet.py:22-28 | the send loop sends the frames in file order, again and again from the first |
| PacketTools.Play | tools/openseeface_play_packet.py:11-28 | the player's frames cover the file exactly with the frame shape, and are sent cyclically in file order |
| Frontend.CliEngine | app-cli.py:182-187 | `pyttsx3` selects the pyttsx3 server and every other name the edge-tts server (the same in app.py:134-139) |
| Frontend.LogRedirect | app-cli.py:165-166 | the redirect is None exactly with `--noecho-server-log` and `"stdout"` otherwise |
| Frontend.Echoes | app-cli.py:65-70 | a server prints exactly when a redirect string is given, `"stdout"` or any other |
| Frontend.ServersEchoUnlessSilenced | app.py:91-96 | servers print exactly when the silencing option was not given |
| Frontend.Dispatch | app.py:150-154 | `voice` runs the voice loop, `keyboard` the keyboard loop, and any other value nothing |
| Frontend.VoiceTurnFacts | app-cli.py:126-155 | no frames means no call; otherwise the transcript goes to the language model unless it is the sentinel; exactly one reaction follows, with the apology or the model's answer |
| Frontend.TypedTurnFacts | app.py:167-176 | an empty line makes no call; another asks the model about it once and reacts with the answer; nothing is transcribed |
| Frontend.VoiceSessionCalls | app.py:200-243 | over a voice session the model gets exactly the non-sentinel transcripts of the recorded turns, in order, and there is one reaction per recorded turn |
| Frontend.TypedSessionCalls | app.py:164-176 | over a keyboard session the model gets exactly the non-empty lines, in order, with one reaction each, and nothing is transcribed |
| Frontend.VoiceSessionOrdered | app-cli.py:112-155 | each `get_text` is followed by `get_answer` or `react_to`; each `get_answer` follows `get_text` with its non-sentinel transcript and precedes `react_to`; each `react_to` gets the model's answer or the apology after the sentinel |
| Frontend.VoiceTurnWithService | app-cli.py:137-148 | with the speech-to-text service behind it, the model never gets an empty prompt, and a turn reacts with the apology exactly when only white space (or the sentinel's own text) was said, or the model answered with those words |
| Frontend.TalkyTalkyCli.constructor | app.py:146-148 | the front end starts with no frames and no calls |
| Frontend.TalkyTalkyCli.Record | app-cli.py:113-119 | `frames.clear()` then appending every chunk leaves exactly the chunks read, and makes no call |
| Frontend.TalkyTalkyCli.VoiceTurn | app-cli.py:113-155 | one pass of the loop makes exactly the calls of a voice turn, given the prompts asked so far |
| Frontend.TalkyTalkyCli.VoiceInteract | app.py:199-245 | the loop makes exactly the calls of the voice session over the turns taken |
| Frontend.TalkyTalkyCli.KeyboardTurn | app.py:165-176 | one pass makes exactly the calls of a keyboard turn for the line typed |
| Frontend.TalkyTalkyCli.KeyboardInteract | app.py:156-176 | the loop makes exactly the calls of the keyboard session over the lines typed |
| Frontend.TalkyTalkyCli.Run | app.py:150-154 | `run` makes the calls of the loop the option selects, or none |
| Tui.TuiEngine | app-tui.py:60-67 | `edge-tts` selects the edge-tts server and every other name the pyttsx3 server |
| Tui.EngineFallbacksDiffer | app-tui.py:62-67 | the two front ends agree exactly on the two documented names; for any other name one starts edge-tts and the other pyttsx3 |
| Tui.TuiTurnCalls | app-tui.py:167-201 | a recorded turn of the app makes exactly the calls of a command-line voice turn |
| Tui.TuiMakesVoiceCalls | app-tui.py:150-203 | the app's loop makes exactly the calls of the command-line voice session, so everything proved about those holds for it |
| Tui.TuiTurnAnswering | app-tui.py:167-201 | `is_answering` is set at every call of a recorded turn and cleared once `react_to` has returned |
| Tui.AnsweringAroundCalls | app-tui.py:150-201 | over a session, every service call happens while answering, and the flag is clear between turns |
| Tui.TalkyTalkyApp.constructor | app-tui.py:109-110 | `is_recording` and `is_answering` both start False |
| Tui.TalkyTalkyApp.KeySpace | app-tui.py:134-143 | the space key does nothing while answering; otherwise it toggles `is_recording` and logs Start or Finish Recording |
| Tui.TalkyTalkyApp.Record | app-tui.py:154-162 | the frames are exactly the chunks read while recording; the flags are untouched |
| Tui.TalkyTalkyApp.Turn | app-tui.py:154-201 | one pass makes the steps of a turn, leaves `is_answering` False after a recorded turn, and keeps the flag in step with the steps |
| Tui.TalkyTalkyApp.Interact | app-tui.py:149-203 | the loop makes exactly the steps of the app's session and keeps the flag in step |
| Tui.TalkyTalkyTuiRecorder.constructor | app.py:357 | `is_recording` starts False |
| Tui.TalkyTalkyTuiRecorder.StopRecord | app.py:451-454 | `stop_record` leaves `is_recording` False and changes nothing else |
| Tui.TalkyTalkyTuiRecorder.StartRecord | app.py:408-443 | `start_record` does nothing while recording; otherwise it records until stopped, and a non-empty recording is transcribed once into the input box |

## Left out

- Real sockets are not modelled.
  - A TCP connection is a message queue, and one `recv` is one whole message of the peer.
  - Truncation at `recv_buflen` and UTF-8 encoding are not modelled.
  - A peer that closes its end is not modelled. There `recv` would return the empty string for ever.
  - A run ends when the peer sends nothing more. In the source, `recv` blocks at that point.
- UDP is not modelled. `sendto` to OpenSeeFace is the daemon's `sent` list. The recorder's `recvfrom` is its datagram list.
- Threads are not modelled. The daemon is stepped against the states its reads observe, not interleaved with the communication loop.
- Timing is not modelled: every `time.sleep`, the floating-point `1 / action_fps` delay, and the player's 1/25 s pause.
- The ML and TTS engines are uninterpreted: Whisper's `transcribe`, GPT4All's `generate`, `pyttsx3.speak`, edge-tts, `asyncio` and `playsound`.
  - GPT4All's chat session is modelled as the earlier prompts of the session. At temperature 0 this makes the reply a function of them.
  - The Whisper loader's local-then-download fallback is not modelled.
  - The edge-tts temporary mp3 file is not modelled.
- Audio and files are not modelled: pyaudio capture, WAV writing, temporary files and `keyboard.is_pressed`.
  - A recording is the list of chunks read and the path it was saved to.
  - A directory listing is a list of entries with their bytes.
- Logging is not modelled. `service_log` timestamps and the servers' prints are left out. Only the client connection log and the text-to-speech server's log are modelled as event lists.
- Process spawning with `multiprocessing.Process` is not modelled. `__del__` clean-up is not modelled.
- These files are not part of this model:
  - main.py, start_frontend.py and start_backend.py;
  - backend_gpt4all.py;
  - the thin Whisper and GPT4All wrappers in backends/ and service/language_model_server.py;
  - backends/base.py.
- `submit_prompt` of app.py is not modelled: the input box's validation, the lock and the call it makes. It is UI code plus concurrency. The Textual widgets, the loading indicators and the sparkline are left out too.
- The endless loops are cut to finite inputs: the queue of pending messages, the turns taken, the lines typed, the observations read and the send rounds.
- Base.ServerBase.Connect: when no poll round is ready within the given rounds the source polls for ever; the model returns with no peer.
- ActionService.ActionServer.Run: it requires `actor_state` to be IDLE and the two sockets to be distinct objects. The source calls `run` only right after construction, which sets IDLE, and the two connections are always distinct.
- FrameDaemon.FrameDaemon.Run: it requires a running thread, which is how `run` starts it.
- Frontend.TalkyTalkyCli.VoiceTurn: the front ends see the services through reply functions, one from a path to its transcript and one from earlier prompts and a prompt to the answer. A service client that failed to connect, where `recv` would raise, is not modelled in the front ends. The clients themselves are modelled in the service modules.
- Tui.TalkyTalkyApp.Record: the loop ends when another thread clears `is_recording`. The model takes the chunks read meanwhile as its input.
- Tui.TalkyTalkyTuiRecorder.StartRecord: the stop press from another thread is modelled as a call of `StopRecord` after the chunks. The final `action_submit` of the input box is not modelled. On that path `submit_prompt` (app.py:383-404) sends the transcript to the language model even when it is `[EMPTY SPEECH]`, and reacts with the model's answer; the model does not capture that.
- TextToSpeech.Text2SpeechServer.Run: for an edge-tts server off Windows it models the corrected synthesis, where every request is acknowledged, not the source's failure on the second request (shown by `TextToSpeech.EdgeSecondRequestAsWritten`).

## Findings

| source | as written | input that shows it | evidently intended | confidence | as-written member | corrected member |
|---|---|---|---|---|---|---|
| service/text2speech.py:84-91 | off Windows, `EdgettsServer._text_to_speech` closes the event loop that asyncio's policy hands out, and the policy hands out that same closed loop on the next request, so `run_until_complete` raises before any ack is sent | two requests to an edge-tts server on Linux or macOS | every request is synthesised and acknowledged, as on Windows where a fresh policy is installed each time | medium, not executed | TextToSpeech.EdgeSecondRequestAsWritten | TextToSpeech.Text2SpeechServer.TextToSpeech |
