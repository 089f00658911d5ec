/** The chat handlers (`BotHandlers` in src/bot/handlers.py), modelled as one
    application-state object holding the store, the voice manager and the
    process-wide "voice replies enabled" flag.

    Each handler runs as one sequential step. The language model is an oracle
    `complete(prompt)` (`None` when the call raises), the synthesis service
    the oracle of the voice manager, the transcription of a voice note a
    parameter, and replies are returned as values. */
module Handlers {

  import opened Wrappers
  import opened Seqs
  import opened Text
  import opened Constants
  import opened Repository
  import opened TtsManager

  /** The reply that ends a turn. */
  datatype Reply =
    | TextReply(text: string)     // the answer as text
    | VoiceReply(voice: string)   // the answer as audio, synthesized with `voice`
    | EmptyAnswerNotice           // the model returned blank text
    | ErrorNotice                 // a collaborator raised

  /** The language model: the answer's text for a prompt, or `None` when it raises. */
  type Completion = seq<ChatTurn> -> Option<string>

  /** The first entry of every prompt. */
  const SYSTEM_TURN: ChatTurn := ChatTurn(SYSTEM_ROLE, SYSTEM_PROMPT)

  /** How many voices the diagnostic command tries at most. */
  const PROBE_LIMIT: nat := 3

  /** How many voices the voice-listing reply shows at most. */
  const LIST_LIMIT: nat := 10

  /** The log after the user's message is stored and the user trimmed to the default retention. */
  function AfterInbound(msgs: seq<Message>, id: nat, u: int, text: string): seq<Message>
  {
    KeepNewest(msgs + [Message(id, u, USER_ROLE, text, None)], u, DEFAULT_KEEP_LAST)
  }

  /** The log after the answer is stored, tagged with the model, and the user trimmed again. */
  function AfterAnswer(msgs: seq<Message>, id: nat, u: int, answer: string, model: string): seq<Message>
  {
    KeepNewest(msgs + [Message(id, u, ASSISTANT_ROLE, answer, Some(model))], u, DEFAULT_KEEP_LAST)
  }

  /** The step from a composed prompt to the reply, over the state before
      (`m0`, `id0`, `prefs0`) and after (`m1`, `id1`, `prefs1`): a raising model
      gives an error notice and a blank answer a notice, both storing nothing;
      otherwise the answer is stored and trimmed, and the reply is text when
      voice is off, else the audio of the first working voice of `priority`,
      falling back to text. */
  ghost predicate Completed(m0: seq<Message>, id0: nat, prefs0: map<int, string>, priority: seq<string>,
                            enabled: bool, model: string, u: int, answer: Option<string>, synth: Synthesizer,
                            m1: seq<Message>, id1: nat, prefs1: map<int, string>, reply: Reply)
  {
    if answer.None? then
      reply == ErrorNotice && m1 == m0 && id1 == id0 && prefs1 == prefs0
    else if Strip(answer.value) == [] then
      reply == EmptyAnswerNotice && m1 == m0 && id1 == id0 && prefs1 == prefs0
    else
      && m1 == AfterAnswer(m0, id0, u, answer.value, model)
      && id1 == id0 + 1
      && if !enabled then
           reply == TextReply(answer.value) && prefs1 == prefs0
         else
           var w := FirstSuccess(priority, Take(answer.value, MAX_TTS_CHARS), synth);
           && reply == (if w.Some? then VoiceReply(w.value) else TextReply(answer.value))
           && prefs1 == Learn(prefs0, u, None, w)
  }

  /** Storing a message and trimming keeps the user within the retention
      bound, makes the stored message the user's newest row, and leaves every
      other user's rows alone. */
  lemma StoreAndTrim(msgs: seq<Message>, m: Message, v: int)
    ensures var after := KeepNewest(msgs + [m], m.userId, DEFAULT_KEEP_LAST);
      && |RowsOf(after, m.userId)| <= DEFAULT_KEEP_LAST
      && RowsOf(after, m.userId) != []
      && RowsOf(after, m.userId)[|RowsOf(after, m.userId)| - 1] == m
      && (v != m.userId ==> RowsOf(after, v) == RowsOf(msgs, v))
  {
    KeepNewestRows(msgs + [m], m.userId, DEFAULT_KEEP_LAST, m.userId);
    KeepNewestRows(msgs + [m], m.userId, DEFAULT_KEEP_LAST, v);
    RowsOfAppend(msgs, m, m.userId);
    RowsOfAppend(msgs, m, v);
  }

  /** After any completed turn the user holds at most the default retention
      of messages, a stored answer is the user's newest row, and no other
      user's rows changed. */
  lemma CompletedTurnFacts(m0: seq<Message>, id0: nat, prefs0: map<int, string>, priority: seq<string>,
                           enabled: bool, model: string, u: int, answer: Option<string>, synth: Synthesizer,
                           m1: seq<Message>, id1: nat, prefs1: map<int, string>, reply: Reply, v: int)
    requires Completed(m0, id0, prefs0, priority, enabled, model, u, answer, synth, m1, id1, prefs1, reply)
    requires |RowsOf(m0, u)| <= DEFAULT_KEEP_LAST
    ensures |RowsOf(m1, u)| <= DEFAULT_KEEP_LAST
    ensures v != u ==> RowsOf(m1, v) == RowsOf(m0, v)
    ensures reply.TextReply? || reply.VoiceReply? ==>
      && answer.Some?
      && RowsOf(m1, u)[|RowsOf(m1, u)| - 1] == Message(id0, u, ASSISTANT_ROLE, answer.value, Some(model))
    ensures reply.VoiceReply? ==> enabled
  {
    if answer.Some? && Strip(answer.value) != [] {
      StoreAndTrim(m0, Message(id0, u, ASSISTANT_ROLE, answer.value, Some(model)), v);
    }
  }

  /** A whole turn (store the user's message and trim, then complete) keeps
      the user within the retention bound and leaves other users alone. */
  lemma TurnFacts(m0: seq<Message>, id0: nat, u: int, text: string, prefs0: map<int, string>, priority: seq<string>,
                  enabled: bool, model: string, answer: Option<string>, synth: Synthesizer,
                  m2: seq<Message>, id2: nat, prefs2: map<int, string>, reply: Reply)
    requires Completed(AfterInbound(m0, id0, u, text), id0 + 1, prefs0, priority, enabled, model, u, answer, synth,
                       m2, id2, prefs2, reply)
    ensures |RowsOf(m2, u)| <= DEFAULT_KEEP_LAST
    ensures forall v :: v != u ==> RowsOf(m2, v) == RowsOf(m0, v)
  {
    var m1 := AfterInbound(m0, id0, u, text);
    var inbound := Message(id0, u, USER_ROLE, text, None);
    StoreAndTrim(m0, inbound, u);
    CompletedTurnFacts(m1, id0 + 1, prefs0, priority, enabled, model, u, answer, synth, m2, id2, prefs2, reply, u);
    forall v | v != u
      ensures RowsOf(m2, v) == RowsOf(m0, v)
    {
      StoreAndTrim(m0, inbound, v);
      CompletedTurnFacts(m1, id0 + 1, prefs0, priority, enabled, model, u, answer, synth, m2, id2, prefs2, reply, v);
    }
  }

  /** A first message from a user with no history is the whole history the
      model sees. */
  lemma FirstMessageIsWholeHistory(msgs: seq<Message>, id: nat, u: int, text: string)
    requires RowsOf(msgs, u) == []
    requires CleanText(text) && |text| <= MAX_HISTORY_CHARS
    ensures HistoryOf(AfterInbound(msgs, id, u, text), u) == [ChatTurn(USER_ROLE, text)]
  {
    var m := Message(id, u, USER_ROLE, text, None);
    var after := AfterInbound(msgs, id, u, text);
    KeepNewestRows(msgs + [m], u, DEFAULT_KEEP_LAST, u);
    RowsOfAppend(msgs, m, u);
    assert RowsOf(after, u) == [m];
    assert Turns([m]) == [ChatTurn(USER_ROLE, text)];
    ShortHistoryIsComplete(after, u);
  }

  /** The text synthesized by the diagnostic command for `name`. */
  function ProbeText(name: string): string
  {
    "Привет! Это тестовое сообщение голосом " + name + "."
  }

  lemma ProbeTextNotBlank(name: string)
    ensures Strip(ProbeText(name)) != []
  {
    TrimFacts(PythonWhitespace, ProbeText(name));
    assert !Drops(PythonWhitespace, ProbeText(name)[0]);
  }

  /** What the voice listing yields: the voices of the default locale, or nothing when it raises. */
  function Listed(listing: Option<seq<VoiceInfo>>): seq<VoiceInfo>
  {
    if listing.None? then [] else InLocale(listing.value, DEFAULT_LOCALE)
  }

  /** The outcome of probing `name` for user `u` is what the voice manager
      yields for it as the explicit voice, given the preferences `prefs`. */
  ghost predicate ProbeOutcome(available: map<string, string>, prefs: map<int, string>, u: int,
                               name: string, result: Option<string>, synth: Synthesizer)
  {
    result == FirstSuccess(Priority(available, prefs, u, Some(name)), Take(ProbeText(name), MAX_TTS_CHARS), synth)
  }

  /** Recording one more probe keeps every recorded outcome faithful. */
  lemma ProbeRecorded(available: map<string, string>, prefs: map<int, string>, u: int,
                      tried: seq<string>, results: seq<Option<string>>,
                      name: string, audio: Option<string>, synth: Synthesizer)
    requires |tried| == |results|
    requires forall j :: 0 <= j < |tried| ==> ProbeOutcome(available, prefs, u, tried[j], results[j], synth)
    requires ProbeOutcome(available, prefs, u, name, audio, synth)
    ensures forall j :: 0 <= j < |tried| + 1 ==>
      ProbeOutcome(available, prefs, u, (tried + [name])[j], (results + [audio])[j], synth)
  {
    forall j | 0 <= j < |tried| + 1
      ensures ProbeOutcome(available, prefs, u, (tried + [name])[j], (results + [audio])[j], synth)
    {
      if j < |tried| {
        assert (tried + [name])[j] == tried[j] && (results + [audio])[j] == results[j];
      }
    }
  }

  /** The voices the diagnostic command tries: the listed ones, or Svetlana and Dmitry when none are listed. */
  function ProbeNames(found: seq<VoiceInfo>): seq<string>
  {
    if found == [] then [SVETLANA, DMITRY]
    else seq(|found|, i requires 0 <= i < |found| => found[i].shortName)
  }

  class BotHandlers {
    const db: Database
    const tts: EdgeTtsManager
    /** The language model's name stored with every answer. */
    const modelName: string
    /** Whether answers are sent as audio (the module-level `voice_enabled`). */
    var voiceEnabled: bool

    ghost predicate Valid()
      reads this, db, tts
    {
      db.Valid() && tts.Valid()
    }

    constructor (db: Database, tts: EdgeTtsManager, modelName: string, voiceEnabled: bool)
      requires db.Valid() && tts.Valid()
      ensures Valid()
      ensures this.db == db && this.tts == tts && this.modelName == modelName && this.voiceEnabled == voiceEnabled
    {
      this.db := db;
      this.tts := tts;
      this.modelName := modelName;
      this.voiceEnabled := voiceEnabled;
    }

    /** `/start`: register the user and report whether voice replies are on. */
    method Start(u: int, username: Option<string>, firstName: Option<string>, lastName: Option<string>)
      returns (voiceOn: bool)
      requires Valid()
      modifies db`users
      ensures Valid()
      ensures db.users == old(db.users)[u := UserRow(username, firstName, lastName)]
      ensures voiceOn == voiceEnabled
    {
      db.EnsureUser(u, username, firstName, lastName);
      voiceOn := voiceEnabled;
    }

    /** `/voice_on`: unconditionally switch voice replies on. */
    method VoiceOn()
      modifies this`voiceEnabled
      ensures voiceEnabled
    {
      voiceEnabled := true;
    }

    /** `/voice_off`: unconditionally switch voice replies off. */
    method VoiceOff()
      modifies this`voiceEnabled
      ensures !voiceEnabled
    {
      voiceEnabled := false;
    }

    /** `/set_voice`: with an argument, store it unvalidated as the user's
        voice; without one, list the voices (refreshing the known voices) and
        change no preference. */
    method SetVoice(u: int, args: seq<string>, listing: Option<seq<VoiceInfo>>)
      returns (shown: seq<VoiceInfo>)
      requires Valid()
      modifies tts`voicePreferences, tts`availableVoices
      ensures Valid()
      ensures args != [] ==>
        && tts.voicePreferences == old(tts.voicePreferences)[u := args[0]]
        && tts.availableVoices == old(tts.availableVoices)
        && shown == []
      ensures args == [] ==>
        && tts.voicePreferences == old(tts.voicePreferences)
        && tts.availableVoices == MergeVoices(old(tts.availableVoices), Listed(listing))
        && shown == Take(Listed(listing), LIST_LIMIT)
    {
      if args == [] {
        var voices := tts.GetAvailableVoices(DEFAULT_LOCALE, listing);
        shown := Take(voices, LIST_LIMIT);
        return;
      }
      tts.voicePreferences := tts.voicePreferences[u := args[0]];
      shown := [];
    }

    /** `/reset`: delete the user's whole history. */
    method Reset(u: int)
      requires Valid()
      modifies db`messages
      ensures Valid()
      ensures db.messages == OthersOf(old(db.messages), u)
    {
      db.DeleteUserHistory(u);
    }

    /** The common tail of a turn once the prompt is composed: ask the model,
        stop on a blank answer, otherwise store the answer, trim, and reply by
        voice or text. */
    method Answer(u: int, prompt: seq<ChatTurn>, complete: Completion, synth: Synthesizer)
      returns (reply: Reply)
      requires Valid() && u in db.users
      modifies db`messages, db`nextId, tts`voicePreferences
      ensures Valid()
      ensures Completed(old(db.messages), old(db.nextId), old(tts.voicePreferences), Priority(old(tts.availableVoices), old(tts.voicePreferences), u, None),
                        voiceEnabled, modelName, u, complete(prompt), synth,
                        db.messages, db.nextId, tts.voicePreferences, reply)
    {
      var response := complete(prompt);
      if response.None? {
        return ErrorNotice;
      }
      var answer := response.value;
      if Strip(answer) == [] {
        return EmptyAnswerNotice;
      }
      var saved := db.SaveMessage(u, ASSISTANT_ROLE, answer, Some(modelName));
      db.TrimHistory(u);
      if voiceEnabled {
        var audio := tts.TextToSpeech(answer, u, None, synth);
        if audio.Some? {
          reply := VoiceReply(audio.value);
        } else {
          reply := TextReply(answer);
        }
      } else {
        reply := TextReply(answer);
      }
    }

    /** The first half of a turn: register the user, store the message and
        trim, and compose the prompt from the system directive and the history. */
    method Inbound(u: int, username: Option<string>, firstName: Option<string>, lastName: Option<string>,
                   userText: string)
      returns (prompt: seq<ChatTurn>)
      requires Valid()
      modifies db`users, db`messages, db`nextId
      ensures Valid() && u in db.users
      ensures db.users == old(db.users)[u := UserRow(username, firstName, lastName)]
      ensures db.messages == AfterInbound(old(db.messages), old(db.nextId), u, userText)
      ensures db.nextId == old(db.nextId) + 1
      ensures prompt == [SYSTEM_TURN] + HistoryOf(db.messages, u)
    {
      db.EnsureUser(u, username, firstName, lastName);
      var saved := db.SaveMessage(u, USER_ROLE, userText, None);
      db.TrimHistory(u);
      var history := db.GetHistory(u);
      prompt := [SYSTEM_TURN] + history;
    }

    /** `handle_text`: register the user, store the message and trim, read
        the history, prompt with the system directive followed by it, and
        answer. */
    method HandleText(u: int, username: Option<string>, firstName: Option<string>, lastName: Option<string>,
                      userText: string, complete: Completion, synth: Synthesizer)
      returns (prompt: seq<ChatTurn>, reply: Reply)
      requires Valid()
      modifies db`users, db`messages, db`nextId, tts`voicePreferences
      ensures Valid()
      ensures db.users == old(db.users)[u := UserRow(username, firstName, lastName)]
      ensures prompt == [SYSTEM_TURN] + HistoryOf(AfterInbound(old(db.messages), old(db.nextId), u, userText), u)
      ensures Completed(AfterInbound(old(db.messages), old(db.nextId), u, userText), old(db.nextId) + 1,
                        old(tts.voicePreferences), Priority(old(tts.availableVoices), old(tts.voicePreferences), u, None),
                        voiceEnabled, modelName, u, complete(prompt), synth,
                        db.messages, db.nextId, tts.voicePreferences, reply)
    {
      prompt := Inbound(u, username, firstName, lastName, userText);
      reply := Answer(u, prompt, complete, synth);
    }

    /** `handle_voice`: a failed download, conversion or transcription ends
        the turn with an error notice and changes nothing; otherwise the
        transcript goes through the same turn as a text message. */
    method HandleVoice(u: int, username: Option<string>, firstName: Option<string>, lastName: Option<string>,
                       transcript: Option<string>, complete: Completion, synth: Synthesizer)
      returns (prompt: seq<ChatTurn>, reply: Reply)
      requires Valid()
      modifies db`users, db`messages, db`nextId, tts`voicePreferences
      ensures Valid()
      ensures transcript.None? ==>
        && reply == ErrorNotice && prompt == []
        && db.users == old(db.users) && db.messages == old(db.messages) && db.nextId == old(db.nextId)
        && tts.voicePreferences == old(tts.voicePreferences)
      ensures transcript.Some? ==>
        && db.users == old(db.users)[u := UserRow(username, firstName, lastName)]
        && prompt == [SYSTEM_TURN] + HistoryOf(AfterInbound(old(db.messages), old(db.nextId), u, transcript.value), u)
        && Completed(AfterInbound(old(db.messages), old(db.nextId), u, transcript.value), old(db.nextId) + 1,
                     old(tts.voicePreferences), Priority(old(tts.availableVoices), old(tts.voicePreferences), u, None),
                     voiceEnabled, modelName, u, complete(prompt), synth,
                     db.messages, db.nextId, tts.voicePreferences, reply)
    {
      if transcript.None? {
        return [], ErrorNotice;
      }
      prompt, reply := HandleText(u, username, firstName, lastName, transcript.value, complete, synth);
    }

    /** `/test_edge_tts`: list the voices (Svetlana and Dmitry when none are
        listed), then try at most the first three with a test sentence,
        stopping at the first that yields audio. */
    method TestEdgeTts(u: int, listing: Option<seq<VoiceInfo>>, synth: Synthesizer)
      returns (tried: seq<string>, results: seq<Option<string>>, success: bool)
      requires Valid()
      modifies tts`voicePreferences, tts`availableVoices
      ensures Valid()
      ensures tts.availableVoices == MergeVoices(old(tts.availableVoices), Listed(listing))
      ensures |tried| <= PROBE_LIMIT && tried <= Take(ProbeNames(Listed(listing)), PROBE_LIMIT)
      ensures |results| == |tried|
      ensures forall j :: 0 <= j < |tried| ==>
        ProbeOutcome(tts.availableVoices, old(tts.voicePreferences), u, tried[j], results[j], synth)
      ensures forall j :: 0 <= j < |tried| && tried[j] != "" ==>
        results[j] == FirstSuccess(ExplicitPriority(tts.availableVoices, tried[j]), Take(ProbeText(tried[j]), MAX_TTS_CHARS), synth)
      ensures success <==> results != [] && results[|results| - 1].Some?
      ensures forall j :: 0 <= j < |results| - 1 ==> results[j].None?
      ensures !success ==> tried == Take(ProbeNames(Listed(listing)), PROBE_LIMIT)
      ensures tried == [] ==> tts.voicePreferences == old(tts.voicePreferences)
      ensures tried != [] ==>
        tts.voicePreferences == Learn(old(tts.voicePreferences), u, Some(tried[|tried| - 1]), results[|results| - 1])
    {
      var voices := tts.GetAvailableVoices(DEFAULT_LOCALE, listing);
      tried, results, success := ProbeVoices(u, Take(ProbeNames(voices), PROBE_LIMIT), synth);
    }

    /** One probe: synthesize the test sentence with `name` as the explicit voice. */
    method ProbeOne(u: int, name: string, synth: Synthesizer) returns (audio: Option<string>)
      requires Valid()
      modifies tts`voicePreferences
      ensures Valid()
      ensures ProbeOutcome(tts.availableVoices, old(tts.voicePreferences), u, name, audio, synth)
      ensures name != "" ==>
        audio == FirstSuccess(ExplicitPriority(tts.availableVoices, name), Take(ProbeText(name), MAX_TTS_CHARS), synth)
      ensures tts.voicePreferences == Learn(old(tts.voicePreferences), u, Some(name), audio)
    {
      ProbeTextNotBlank(name);
      if name != "" {
        ExplicitVoiceWins(tts.availableVoices, tts.voicePreferences, u, name);
      }
      audio := tts.TextToSpeech(ProbeText(name), u, Some(name), synth);
    }

    /** The probing loop of `/test_edge_tts`: synthesize the test sentence
        with each voice of `probe` as the explicit voice until one yields audio. */
    method ProbeVoices(u: int, probe: seq<string>, synth: Synthesizer)
      returns (tried: seq<string>, results: seq<Option<string>>, success: bool)
      requires Valid()
      modifies tts`voicePreferences
      ensures Valid()
      ensures tried <= probe && |results| == |tried|
      ensures forall j :: 0 <= j < |tried| ==>
        ProbeOutcome(tts.availableVoices, old(tts.voicePreferences), u, tried[j], results[j], synth)
      ensures success <==> results != [] && results[|results| - 1].Some?
      ensures forall j :: 0 <= j < |results| - 1 ==> results[j].None?
      ensures !success ==> tried == probe
      ensures tried == [] ==> tts.voicePreferences == old(tts.voicePreferences)
      ensures tried != [] ==>
        tts.voicePreferences == Learn(old(tts.voicePreferences), u, Some(tried[|tried| - 1]), results[|results| - 1])
    {
      tried, results, success := [], [], false;
      var i := 0;
      while i < |probe|
        invariant 0 <= i <= |probe|
        invariant tried == probe[..i] && |results| == i && !success
        invariant forall j :: 0 <= j < |results| ==> results[j].None?
        invariant forall j :: 0 <= j < |tried| ==>
          ProbeOutcome(tts.availableVoices, old(tts.voicePreferences), u, tried[j], results[j], synth)
        invariant tts.voicePreferences == old(tts.voicePreferences) && tts.availableVoices == old(tts.availableVoices)
        invariant Valid()
      {
        var name := probe[i];
        var audio := ProbeOne(u, name, synth);
        ProbeRecorded(tts.availableVoices, old(tts.voicePreferences), u, tried, results, name, audio, synth);
        tried := tried + [name];
        results := results + [audio];
        if audio.Some? {
          success := true;
          break;
        }
        i := i + 1;
      }
    }
  }
}
