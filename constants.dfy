/** Fixed values of the bot's configuration (src/config/constants.py). */
module Constants {

  /** Budget, in characters, of the history replayed to the language model. */
  const MAX_HISTORY_CHARS: nat := 12000

  /** Number of most recent messages read back as history. */
  const HISTORY_MESSAGES_LIMIT: nat := 8

  /** Number of messages per user kept by the retention trim (its default argument). */
  const DEFAULT_KEEP_LAST: nat := 20

  /** The system directive placed in front of every prompt. */
  const SYSTEM_PROMPT: string :=
    "Ты — полезный ассистент. Отвечай кратко и по делу.\nЕсли тебя спрашивают что-то сложное — объясняй просто."

  /** Role names stored with each message. */
  const USER_ROLE: string := "user"
  const ASSISTANT_ROLE: string := "assistant"
  const SYSTEM_ROLE: string := "system"
}
