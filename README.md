# Voice assistant with memory: a Dafny model of its core

The bot answers Telegram text and voice messages with a local language
model and keeps each user's dialogue in PostgreSQL. This project models
four parts of it:

- the message store (`Database`, src/database/repository.py). It is a class
  with a `users` map and a `messages` log kept in insertion order. It
  registers users, appends messages, reads the prompt history, trims a
  user to their newest rows, deletes a user's history and computes
  statistics.
- the voice manager (`EdgeTTSManager`, src/voice/tts_manager.py). It is a
  class holding the known voices and the per-user preferences. It builds
  the voice priority list, runs the synthesis loop that learns a working
  voice, and merges the service's voice listing into the known voices.
- the chat handlers (`BotHandlers`, src/bot/handlers.py). They form one
  application object that holds the store, the voice manager and the
  process-wide "voice replies on" flag. The model covers `/start`,
  `/voice_on`, `/voice_off`, `/set_voice`, `/reset`, `/test_edge_tts` and
  the text and voice turns.
- `truncate_text` (src/utils/helpers.py).

The modules follow the source: `Repository`, `TtsManager`, `Handlers` and
`Helpers`. Four support modules sit beside them. `Constants` holds the
values of src/config/constants.py. `Text` holds the two notions of "blank".
`Seqs` holds slicing and reversal. `Wrappers` holds `Option`.

Collaborators that cannot be seen become parameters:

- the language model is `complete(prompt)`, which is `None` when the call raises;
- the speech service is `synth(text, voice)`, the size of the file it
  writes, or `None` when it raises;
- the voice listing is an `Option<seq<VoiceInfo>>`;
- the transcript of a voice note is an `Option<string>`, which is `None`
  when download, conversion or transcription fails.

Replies are returned as a `Reply` value. An audio file is represented by
the voice that produced it.

The model orders rows by their serial id where the SQL orders them by
`created_at`. These agree except for rows stored in the same instant, whose
SQL order is unspecified; the model takes those in insertion order.

Two notions of blank text meet in `get_history`. The SQL filter uses
`TRIM`, which removes only U+0020. The loop uses Python's `strip()`, which
removes every `str.isspace()` character. A row holding only a newline
therefore passes the SQL filter and takes one of the eight window slots,
and the loop then skips it (`Text.NewlineIsBlankOnlyToPython`). The model
keeps this behaviour.

## Model

| member | source | states |
|---|---|---|
| Repository.Database.EnsureUser | src/database/repository.py:34-43 | Registers the user, or overwrites all three display attributes (last write wins). Other users are unchanged and the store invariant is kept. |
| Repository.Database.SaveMessage | src/database/repository.py:45-50 | Appends exactly one row with the next serial id, role, content and model tag. When the user is not registered, the foreign key refuses it (`ok` false) and nothing changes. Ids stay increasing and every row has a registered owner. |
| Repository.Database.GetHistory | src/database/repository.py:52-82 | The loop (strip, skip blank entries, stop at the first entry that would overflow the budget) returns exactly `HistoryOf`, the history of the user's selected rows oldest first. |
| Repository.HistoryBounds | src/database/repository.py:52-82 | The history has at most `HISTORY_MESSAGES_LIMIT` (8) entries and at most `MAX_HISTORY_CHARS` (12000) characters. It is a prefix of the stripped window. Each entry is the non-empty stripped text of one of the user's own rows. When it is shorter than the stripped window, the next entry would overflow the budget. |
| Repository.WindowIsNewestFiltered | src/database/repository.py:54-64 | `ORDER BY ... DESC LIMIT 8` followed by `reversed` gives the user's newest 8 rows that pass the SQL blank filter, oldest first. Every row in it belongs to the user and passes the filter. |
| Repository.WindowIsOldestFirst | src/database/repository.py:60-64 | When the log's ids increase, the window's ids increase too, so the prompt runs oldest to newest. |
| Repository.BudgetCutsAtFirstOverflow | src/database/repository.py:73-75 | If the running total of stripped entries first exceeds the budget at entry `k`, the history is exactly the entries before `k`. No later entry is kept, even a shorter one. |
| Repository.AccumulateFacts | src/database/repository.py:65-80 | The loop from any starting total yields a prefix of the stripped entries. It stays within the budget, and it stops only where the next entry would overflow. |
| Repository.AccumulateAllFit | src/database/repository.py:65-80 | When every stripped entry fits in the budget, the loop keeps all of them in order. |
| Repository.ShortHistoryIsComplete | src/database/repository.py:52-82 | A user with at most 8 rows, all clean and within the budget, gets back every row as a (role, content) pair, in order. |
| Repository.LongHistoryIsNewestWindow | src/database/repository.py:54-64 | A user with clean rows gets back exactly the newest 8 rows as (role, content) pairs, when those fit the budget. |
| Repository.SavedExchangeReadsBackInOrder | tests/test_database.py:40-57 | A question and then an answer saved for a user with no rows are read back as `[user q, assistant a]`. |
| Repository.Database.TrimHistory | src/database/repository.py:84-94 | The log becomes `KeepNewest(old log, u, keepLast)` and the store invariant is kept. |
| Repository.KeepNewestRows | src/database/repository.py:84-94 | After trimming, the user's rows are exactly their `k` newest rows in order. Every other user's rows are unchanged. |
| Repository.KeepNewestFacts | src/database/repository.py:84-94 | Trimming only deletes rows and keeps the ids increasing. |
| Repository.TrimBound | src/database/repository.py:84-94 | After trimming, the user holds at most `k` rows. |
| Repository.TrimWithinBoundIsNoOp | src/database/repository.py:84-94 | Trimming a user who holds at most `k` rows deletes nothing. |
| Repository.TrimIdempotent | src/database/repository.py:84-94 | Trimming twice with the same bound is the same as trimming once. |
| Repository.Database.DeleteUserHistory | src/database/repository.py:107-113 | The log becomes the other users' rows, in order, and the store invariant is kept. |
| Repository.OthersOfFacts | src/database/repository.py:107-113 | Deleting keeps exactly the rows of the other users and keeps their ids increasing. |
| Repository.DeleteClearsHistory | src/database/repository.py:107-113 | After deletion the user's history is empty, and every other user keeps all of their rows. |
| Repository.UserStats | src/database/repository.py:115-157 | `total` is the user's row count, and the user and assistant counts add up to at most `total`. The first and last stamps are absent exactly when `total` is 0. When ids increase, they bound every id of the user's rows. |
| Repository.RoleCountsWithinTotal | src/database/repository.py:119-133 | The rows with role "user" plus those with role "assistant" are never more than all of the user's rows. |
| Repository.TrimBoundsStats | src/database/repository.py:84-94 | After trimming to `k`, the reported total is at most `k`, and every other user's statistics are unchanged. |
| Repository.RowsOfFacts | src/database/repository.py:57 | `WHERE user_id = u` selects exactly the user's rows, keeps their order and has no more rows than the log. |
| Repository.SqlFilteredFacts | src/database/repository.py:58-59 | The SQL filter keeps exactly the rows whose content is not blank to `TRIM`, in order. |
| Repository.StrippedFacts | src/database/repository.py:68-71 | Each stripped entry is the non-empty stripped content of one of the rows, and there are no more entries than rows. |
| Text.SqlBlankIsStripBlank | src/database/repository.py:59 | Text that `TRIM` finds blank, `strip()` finds blank too, so every row the loop keeps also passed the SQL filter. |
| Text.TrimFacts | src/database/repository.py:69 | Trimming never lengthens text. The result is empty exactly when every character is trimmable. A non-empty result starts and ends with kept characters, and text with no surrounding blanks is unchanged. |
| Seqs.ReverseOfNewestFirst | src/database/repository.py:60-64 | Taking the newest `k` rows newest first and reversing them gives the newest `k` rows oldest first. |
| TtsManager.EdgeTtsManager.constructor | src/voice/tts_manager.py:8-19 | The six Russian voices are known with their genders, the default voice is Svetlana and there are no preferences. |
| TtsManager.EdgeTtsManager.GetVoicePriority | src/voice/tts_manager.py:64-75 | Every listed voice is non-empty and known. While the fallback voices are known, the list ends with the whole six-voice fallback chain. |
| TtsManager.PriorityShape | src/voice/tts_manager.py:64-75 | The list is the preferred voice (when it is non-empty and known) followed by the whole fallback chain, with no de-duplication. It has at least six entries. |
| TtsManager.ExplicitVoiceWins | src/voice/tts_manager.py:65 | A non-empty explicit voice overrides any stored preference, and it comes first when it is known. |
| TtsManager.EdgeTtsManager.TextToSpeech | src/voice/tts_manager.py:32-62 | Blank text gives no audio and changes nothing. Otherwise the result is the first voice of the priority list whose synthesis of the first 1000 characters yields more than 1000 bytes. The preferences change only as `Learn` says. |
| TtsManager.FirstSuccessFacts | src/voice/tts_manager.py:44-62 | No audio exactly when every voice fails. Otherwise the winner is the earliest voice that works. |
| TtsManager.LearnFacts | src/voice/tts_manager.py:56-57 | A fallback win is stored only for a user without a preference. An existing preference is never overwritten and other users are never touched. A total failure stores nothing. |
| TtsManager.LearnedVoiceComesFirst | src/voice/tts_manager.py:56-57 | Once a fallback voice has been learned, the next call without an explicit voice tries it first. |
| TtsManager.EdgeTtsManager.GetAvailableVoices | src/voice/tts_manager.py:21-30 | Returns the listed voices whose locale contains the requested one and merges them into the known voices, which only grow. A failing listing returns nothing and changes nothing. |
| TtsManager.InLocaleFacts | src/voice/tts_manager.py:24 | The locale filter keeps exactly the voices whose locale contains the requested locale. |
| TtsManager.MergeVoicesFacts | src/voice/tts_manager.py:25-26 | After the merge, the known names are the old ones plus the listed ones. An old voice keeps its gender unless it is listed again. |
| Helpers.TruncateText | src/utils/helpers.py:11-15 | Text within the limit is returned unchanged. Longer text becomes its first `max_length` characters and then "...". A negative limit follows Python's slicing from the end. |
| Helpers.TruncateIdempotent | src/utils/helpers.py:11-15 | For a non-negative limit, truncating twice is the same as truncating once. |
| Handlers.BotHandlers.constructor | src/bot/handlers.py:18-24 | The handlers hold the given store and voice manager, and the flag starts at the configured value. |
| Handlers.BotHandlers.Start | src/bot/handlers.py:26-49 | Registers the user and reports the current voice flag. |
| Handlers.BotHandlers.VoiceOn | src/bot/handlers.py:51-55 | Voice replies are on afterwards, whatever they were before. |
| Handlers.BotHandlers.VoiceOff | src/bot/handlers.py:57-61 | Voice replies are off afterwards, whatever they were before. |
| Handlers.BotHandlers.SetVoice | src/bot/handlers.py:110-127 | With an argument, stores it unvalidated as the user's voice. Without one, lists up to 10 voices of the default locale, merges them into the known voices and changes no preference. |
| Handlers.BotHandlers.Reset | src/bot/handlers.py:129-145 | Deletes every row of the user and keeps the other users' rows. |
| Handlers.BotHandlers.Inbound | src/bot/handlers.py:265-279 | Registers the user, stores the message, trims to 20 rows and composes the prompt: the system directive, then the history of the trimmed log. |
| Handlers.BotHandlers.Answer | src/bot/handlers.py:281-296 | The step from prompt to reply, as `Completed` states it. A raising model gives an error notice and a blank answer gives a notice; neither stores anything. Otherwise the answer is stored with the model's name and trimmed. The reply is then text, or the audio of the first working voice, falling back to text. |
| Handlers.BotHandlers.HandleText | src/bot/handlers.py:259-303 | The user is registered. The prompt is the system directive followed by the history of the log after storing and trimming the message. The reply and the final state are those of `Completed`. |
| Handlers.BotHandlers.HandleVoice | src/bot/handlers.py:182-257 | A failed transcription gives an error notice and changes nothing. Otherwise the transcript goes through the same turn as a text message. |
| Handlers.CompletedTurnFacts | src/bot/handlers.py:285-296 | After the answer step the user still holds at most 20 rows and other users' rows are unchanged. A text or voice reply means the answer is the user's newest row, and a voice reply means voice was on. |
| Handlers.TurnFacts | src/bot/handlers.py:265-296 | A whole turn leaves the user at most 20 rows and leaves every other user's rows unchanged. |
| Handlers.StoreAndTrim | src/bot/handlers.py:266-267 | Storing and trimming leaves the new message as the user's newest row, keeps the user within 20 rows and leaves others alone. |
| Handlers.FirstMessageIsWholeHistory | src/bot/handlers.py:265-276 | The first clean message of a user with no history is the whole history the model sees. |
| Handlers.BotHandlers.TestEdgeTts | src/bot/handlers.py:63-108 | Lists the voices (Svetlana and Dmitry when none are found) and tries at most the first three in order, stopping at the first that yields audio. Each outcome is what the voice manager gives for that voice as the explicit voice under the preferences held when the command started (for a non-empty name, independent of them), and `success` holds exactly when the last attempt produced audio. Preferences change only through the last attempt's learning step: failed attempts store nothing, so an empty voice name is resolved against the user's preference as it was at the start. |
| Handlers.BotHandlers.ProbeVoices | src/bot/handlers.py:82-105 | Tries the voices in order until one yields audio. Earlier attempts all failed, all voices were tried when none worked, every outcome is determined by the preferences at the start, and the only preference change is the learning step of the last attempt. |
| Handlers.BotHandlers.ProbeOne | src/bot/handlers.py:84-90 | One probe synthesizes the test sentence with the named voice as the explicit voice: the audio is the first success along the priority list for that voice and the user's preference (an empty name falls back to the stored preference), a non-empty name makes it independent of preferences, and the preferences change as `Learn` says. |
| Handlers.ProbeTextNotBlank | src/bot/handlers.py:87 | The test sentence is never blank, so every probe reaches the synthesis loop. |

## Left out

- Telegram I/O: status and echo messages, typing actions, and the text of the listings. Replies are returned as a `Reply` value or as the listed voices.
- The `/stats` handler's formatting: percentages, dates and floating point. `get_user_stats` itself is `Repository.UserStats`.
- `created_at` timestamps of users and messages. Message order is the serial id, and the statistics report ids in place of timestamps.
- `Database.init`, `_create_tables` and `close`, the connection pool and connection failures. The store is always reachable.
- Concurrency between updates. Every handler runs as one sequential step.
- Temporary files: the MD5-named path, deleting an old file, `safe_unlink`, and the `finally` cleanups. An audio file is the voice that produced it.
- The ollama, edge_tts and faster-whisper calls, `download_voice` and `convert_to_wav` (src/voice/audio_utils.py, src/voice/stt_processor.py). They are the oracle parameters described above.
- src/main.py, scripts/test_voices.py, src/utils/logger.py and the rest of src/utils/helpers.py (`format_timestamp`, `safe_json_loads` and friends). They are wiring, logging or formatting.
- src/config/settings.py: `MODEL_NAME` and `VOICE_ENABLED` are constructor parameters of `BotHandlers`.
- A listing that raises half way through the merge. It is modelled as failing before any voice is merged.
- Repository.Database.TrimHistory: `keep_last` is a natural number; a negative `OFFSET` is a PostgreSQL error and is not modelled.
- Handlers.BotHandlers.HandleVoice: storage errors are not modelled, so raising inside or outside the `try` makes no difference. The voice turn is the text turn on the transcript.
- Repository.Database.SaveMessage: when the foreign key refuses the row, PostgreSQL has already consumed a `BIGSERIAL` value and the call raises; the model returns `ok` false and leaves `nextId` as it was. Ids are never shown to the user, so only the gap in the numbering is not captured.
