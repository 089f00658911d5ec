/** The Edge TTS voice manager (`EdgeTTSManager` in src/voice/tts_manager.py):
    the known voices, the per-user voice preferences, the fallback chain and
    the synthesis loop that learns a working voice.

    The synthesis service is an oracle `synth(text, voice)`: the size in bytes
    of the audio file it leaves, or `None` when the call raises. */
module TtsManager {

  import opened Wrappers
  import opened Seqs
  import opened Text

  const SVETLANA: string := "ru-RU-SvetlanaNeural"
  const DMITRY: string := "ru-RU-DmitryNeural"
  const CATHERINE: string := "ru-RU-CatherineNeural"
  const MARINA: string := "ru-RU-MarinaNeural"
  const MIKHAIL: string := "ru-RU-MikhailNeural"
  const ANDREY: string := "ru-RU-AndreyNeural"

  /** The fallback chain, in the order it is tried. */
  const FALLBACK_VOICES: seq<string> := [SVETLANA, DMITRY, CATHERINE, MARINA, MIKHAIL, ANDREY]

  /** The voices known before any listing, with their genders. */
  const INITIAL_VOICES: map<string, string> := map[
    DMITRY := "Male", SVETLANA := "Female", CATHERINE := "Female",
    MARINA := "Female", MIKHAIL := "Male", ANDREY := "Male"]

  const DEFAULT_LOCALE: string := "ru-RU"

  /** Only this many characters of the text are sent for synthesis. */
  const MAX_TTS_CHARS: nat := 1000

  /** An audio file must be larger than this many bytes to count as speech. */
  const MIN_AUDIO_BYTES: nat := 1000

  /** One entry of the service's voice listing (`ShortName`, `Gender`, `Locale`). */
  datatype VoiceInfo = VoiceInfo(shortName: string, gender: string, locale: string)

  /** The synthesis service: size of the file written for (text, voice), or
      `None` when it raises. */
  type Synthesizer = (string, string) -> Option<nat>

  // ---------------------------------------------------------------------
  // _get_voice_priority

  /** `voice or self.voice_preferences.get(user_id)`: an empty explicit voice
      is falsy and falls through to the stored preference. */
  function Preferred(prefs: map<int, string>, u: int, voice: Option<string>): Option<string>
  {
    if voice.Some? && voice.value != "" then voice
    else if u in prefs then Some(prefs[u])
    else None
  }

  /** The comprehension's test `v and v in self.available_voices`. */
  predicate Usable(v: Option<string>, available: map<string, string>)
  {
    v.Some? && v.value != "" && v.value in available
  }

  /** The candidates that pass `Usable`, in order. */
  function KeepUsable(cands: seq<Option<string>>, available: map<string, string>): seq<string>
  {
    if cands == [] then []
    else (if Usable(cands[0], available) then [cands[0].value] else []) + KeepUsable(cands[1..], available)
  }

  lemma {:induction false} KeepUsableFacts(cands: seq<Option<string>>, available: map<string, string>)
    ensures |KeepUsable(cands, available)| <= |cands|
    ensures forall v :: v in KeepUsable(cands, available) ==> v != "" && v in available
  {
    if cands != [] {
      KeepUsableFacts(cands[1..], available);
    }
  }

  /** The list `_get_voice_priority` builds before filtering: the preferred
      voice, then the fallback chain. */
  function Candidates(preferred: Option<string>): seq<Option<string>>
  {
    [preferred, Some(SVETLANA), Some(DMITRY), Some(CATHERINE), Some(MARINA), Some(MIKHAIL), Some(ANDREY)]
  }

  /** `_get_voice_priority(user_id, voice)` over the given known voices and preferences. */
  function Priority(available: map<string, string>, prefs: map<int, string>, u: int, voice: Option<string>): seq<string>
  {
    KeepUsable(Candidates(Preferred(prefs, u, voice)), available)
  }

  /** Every voice of the fallback chain is known. */
  ghost predicate FallbacksKnown(available: map<string, string>)
  {
    forall v :: v in FALLBACK_VOICES ==> v in available
  }

  /** When the fallback voices are known, the priority list is the preferred
      voice (when it is usable) followed by the whole fallback chain, with no
      de-duplication; it has at least six entries. */
  lemma PriorityShape(available: map<string, string>, prefs: map<int, string>, u: int, voice: Option<string>)
    requires FallbacksKnown(available)
    ensures var p := Preferred(prefs, u, voice);
      Priority(available, prefs, u, voice) == (if Usable(p, available) then [p.value] else []) + FALLBACK_VOICES
    ensures |Priority(available, prefs, u, voice)| >= 6
  {
    var c := Candidates(Preferred(prefs, u, voice));
    assert SVETLANA != "" && DMITRY != "" && CATHERINE != "" && MARINA != "" && MIKHAIL != "" && ANDREY != "";
    assert KeepUsable(c[7..], available) == [];
    assert KeepUsable(c[6..], available) == [ANDREY] by { assert c[6..][1..] == c[7..]; }
    assert KeepUsable(c[5..], available) == [MIKHAIL, ANDREY] by { assert c[5..][1..] == c[6..]; }
    assert KeepUsable(c[4..], available) == [MARINA, MIKHAIL, ANDREY] by { assert c[4..][1..] == c[5..]; }
    assert KeepUsable(c[3..], available) == FALLBACK_VOICES[2..] by { assert c[3..][1..] == c[4..]; }
    assert KeepUsable(c[2..], available) == FALLBACK_VOICES[1..] by { assert c[2..][1..] == c[3..]; }
    assert KeepUsable(c[1..], available) == FALLBACK_VOICES by { assert c[1..][1..] == c[2..]; }
  }

  /** The priority list for an explicit voice `v`. */
  function ExplicitPriority(available: map<string, string>, v: string): seq<string>
  {
    KeepUsable(Candidates(Some(v)), available)
  }

  /** A non-empty explicit voice takes priority over any stored preference:
      the list does not depend on the preferences, and the voice comes first
      when it is known. */
  lemma ExplicitVoiceWins(available: map<string, string>, prefs: map<int, string>, u: int, v: string)
    requires v != ""
    ensures Priority(available, prefs, u, Some(v)) == ExplicitPriority(available, v)
    ensures v in available ==> Priority(available, prefs, u, Some(v))[0] == v
  {
  }

  // ---------------------------------------------------------------------
  // text_to_speech

  /** The success test `mp3_path.exists() and mp3_path.stat().st_size > 1000`. */
  predicate Succeeds(size: Option<nat>)
  {
    size.Some? && size.value > MIN_AUDIO_BYTES
  }

  /** The first voice of `voices` whose synthesis of `sent` succeeds. */
  function FirstSuccess(voices: seq<string>, sent: string, synth: Synthesizer): Option<string>
  {
    if voices == [] then None
    else if Succeeds(synth(sent, voices[0])) then Some(voices[0])
    else FirstSuccess(voices[1..], sent, synth)
  }

  /** `FirstSuccess` finds a voice exactly when some voice works, and then it
      is the earliest one that works. */
  lemma {:induction false} FirstSuccessFacts(voices: seq<string>, sent: string, synth: Synthesizer)
    ensures FirstSuccess(voices, sent, synth).None? <==>
      forall i :: 0 <= i < |voices| ==> !Succeeds(synth(sent, voices[i]))
    ensures FirstSuccess(voices, sent, synth).Some? ==>
      exists i :: 0 <= i < |voices| && voices[i] == FirstSuccess(voices, sent, synth).value
        && Succeeds(synth(sent, voices[i]))
        && forall j :: 0 <= j < i ==> !Succeeds(synth(sent, voices[j]))
  {
    if voices != [] && !Succeeds(synth(sent, voices[0])) {
      FirstSuccessFacts(voices[1..], sent, synth);
      var r := FirstSuccess(voices, sent, synth);
      if r.Some? {
        var i :| 0 <= i < |voices[1..]| && voices[1..][i] == r.value
          && Succeeds(synth(sent, voices[1..][i]))
          && forall j :: 0 <= j < i ==> !Succeeds(synth(sent, voices[1..][j]));
        assert voices[i + 1] == r.value;
        forall j | 0 <= j < i + 1 ensures !Succeeds(synth(sent, voices[j])) {
          if j > 0 { assert voices[j] == voices[1..][j - 1]; }
        }
      } else {
        forall i | 0 <= i < |voices| ensures !Succeeds(synth(sent, voices[i])) {
          if i > 0 { assert voices[i] == voices[1..][i - 1]; }
        }
      }
    }
  }

  /** The preferences after a synthesis that ended with `winner`: the winner
      is stored only when it is not the explicitly requested voice and the
      user has no preference yet. */
  function Learn(prefs: map<int, string>, u: int, voice: Option<string>, winner: Option<string>): map<int, string>
  {
    if winner.Some? && voice != winner && u !in prefs then prefs[u := winner.value] else prefs
  }

  /** Learning never overwrites an existing preference, never touches another
      user's, and does nothing after a total failure. */
  lemma LearnFacts(prefs: map<int, string>, u: int, voice: Option<string>, winner: Option<string>)
    ensures prefs.Keys <= Learn(prefs, u, voice, winner).Keys
    ensures forall w :: w in prefs ==> Learn(prefs, u, voice, winner)[w] == prefs[w]
    ensures forall w :: w != u ==> (w in Learn(prefs, u, voice, winner) <==> w in prefs)
    ensures winner.None? ==> Learn(prefs, u, voice, winner) == prefs
    ensures u !in prefs && winner.Some? && voice.None? ==>
      u in Learn(prefs, u, voice, winner) && Learn(prefs, u, voice, winner)[u] == winner.value
  {
  }

  /** Once a fallback voice has been learned for a user with no preference,
      a later call without an explicit voice puts that voice first. */
  lemma LearnedVoiceComesFirst(available: map<string, string>, prefs: map<int, string>, u: int, w: string)
    requires u !in prefs && w != "" && w in available
    ensures Priority(available, Learn(prefs, u, None, Some(w)), u, None)[0] == w
  {
  }

  // ---------------------------------------------------------------------
  // get_available_voices

  /** Python's `p in s` on strings: `p` occurs in `s`. */
  predicate IsInfix(p: string, s: string)
  {
    |p| <= |s| && (p <= s || IsInfix(p, s[1..]))
  }

  /** `[v for v in voices if locale in v['Locale']]`. */
  function InLocale(voices: seq<VoiceInfo>, locale: string): seq<VoiceInfo>
  {
    if voices == [] then []
    else (if IsInfix(locale, voices[0].locale) then [voices[0]] else []) + InLocale(voices[1..], locale)
  }

  lemma {:induction false} InLocaleFacts(voices: seq<VoiceInfo>, locale: string)
    ensures forall v :: v in InLocale(voices, locale) <==> v in voices && IsInfix(locale, v.locale)
  {
    if voices != [] {
      InLocaleFacts(voices[1..], locale);
      assert voices == [voices[0]] + voices[1..];
    }
  }

  /** The known voices after `available[v.ShortName] = v.Gender` for each `v` in turn. */
  function MergeVoices(available: map<string, string>, voices: seq<VoiceInfo>): map<string, string>
  {
    if voices == [] then available
    else
      var last := voices[|voices| - 1];
      MergeVoices(available, voices[..|voices| - 1])[last.shortName := last.gender]
  }

  /** Merging only adds voices: the known names are the old ones plus the
      listed ones, and an old voice keeps its gender unless it is listed again. */
  lemma {:induction false} MergeVoicesFacts(available: map<string, string>, voices: seq<VoiceInfo>)
    ensures forall k :: k in MergeVoices(available, voices) <==>
      k in available || exists v :: v in voices && v.shortName == k
    ensures forall k :: k in available && (forall v :: v in voices ==> v.shortName != k) ==>
      MergeVoices(available, voices)[k] == available[k]
  {
    if voices != [] {
      var init, last := voices[..|voices| - 1], voices[|voices| - 1];
      assert voices == init + [last];
      MergeVoicesFacts(available, init);
      forall k | k in MergeVoices(available, voices)
        ensures k in available || exists v :: v in voices && v.shortName == k
      {
        if k != last.shortName && k !in available {
          var v :| v in init && v.shortName == k;
          assert v in voices;
        }
      }
    }
  }

  // ---------------------------------------------------------------------
  // The manager

  class EdgeTtsManager {
    /** Short name to gender of every voice known to be available. */
    var availableVoices: map<string, string>
    /** Stored but never read by the manager. */
    const defaultVoice: string
    /** Per-user preferred voice, kept for the life of the process. */
    var voicePreferences: map<int, string>

    ghost predicate Valid()
      reads this
    {
      FallbacksKnown(availableVoices)
    }

    constructor ()
      ensures Valid()
      ensures availableVoices == INITIAL_VOICES
      ensures defaultVoice == SVETLANA
      ensures voicePreferences == map[]
    {
      availableVoices := INITIAL_VOICES;
      defaultVoice := SVETLANA;
      voicePreferences := map[];
    }

    /** `_get_voice_priority(user_id, voice)`: only non-empty known voices,
        at least the six fallback voices. */
    function GetVoicePriority(u: int, voice: Option<string>): (r: seq<string>)
      reads this
      ensures forall v :: v in r ==> v != "" && v in availableVoices
      ensures Valid() ==> |r| >= 6 && r[|r| - 6..] == FALLBACK_VOICES
    {
      KeepUsableFacts(Candidates(Preferred(voicePreferences, u, voice)), availableVoices);
      var r := Priority(availableVoices, voicePreferences, u, voice);
      assert Valid() ==> |r| >= 6 && r[|r| - 6..] == FALLBACK_VOICES by {
        if Valid() { PriorityShape(availableVoices, voicePreferences, u, voice); }
      }
      r
    }

    /** `text_to_speech(text, user_id, voice)`: nothing for blank text;
        otherwise the first voice of the priority list whose synthesis of the
        first 1000 characters succeeds (it stands for the audio file), and
        the preferences updated by `Learn`. */
    method TextToSpeech(text: string, u: int, voice: Option<string>, synth: Synthesizer)
      returns (audio: Option<string>)
      requires Valid()
      modifies this`voicePreferences
      ensures Valid()
      ensures Strip(text) == [] ==> audio.None? && voicePreferences == old(voicePreferences)
      ensures Strip(text) != [] ==>
        audio == FirstSuccess(old(GetVoicePriority(u, voice)), Take(text, MAX_TTS_CHARS), synth)
      ensures voicePreferences == Learn(old(voicePreferences), u, voice, audio)
    {
      if Strip(text) == [] {
        return None;
      }
      var voicesToTry := GetVoicePriority(u, voice);
      var sent := Take(text, MAX_TTS_CHARS);
      var i := 0;
      while i < |voicesToTry|
        invariant 0 <= i <= |voicesToTry|
        invariant FirstSuccess(voicesToTry[i..], sent, synth) == FirstSuccess(voicesToTry, sent, synth)
        invariant voicePreferences == old(voicePreferences)
      {
        assert voicesToTry[i..][1..] == voicesToTry[i + 1..];
        var size := synth(sent, voicesToTry[i]);
        if Succeeds(size) {
          if voice != Some(voicesToTry[i]) && u !in voicePreferences {
            voicePreferences := voicePreferences[u := voicesToTry[i]];
          }
          return Some(voicesToTry[i]);
        }
        i := i + 1;
      }
      return None;
    }

    /** `get_available_voices(locale)`: the listed voices of the locale,
        merged into the known voices; nothing found and nothing changed when
        the listing fails. */
    method GetAvailableVoices(locale: string, listing: Option<seq<VoiceInfo>>)
      returns (found: seq<VoiceInfo>)
      requires Valid()
      modifies this`availableVoices
      ensures Valid()
      ensures listing.None? ==> found == [] && availableVoices == old(availableVoices)
      ensures listing.Some? ==> found == InLocale(listing.value, locale)
      ensures availableVoices == MergeVoices(old(availableVoices), found)
      ensures old(availableVoices).Keys <= availableVoices.Keys
    {
      if listing.None? {
        return [];
      }
      found := InLocale(listing.value, locale);
      var i := 0;
      while i < |found|
        invariant 0 <= i <= |found|
        invariant availableVoices == MergeVoices(old(availableVoices), found[..i])
      {
        assert found[..i + 1][..i] == found[..i];
        availableVoices := availableVoices[found[i].shortName := found[i].gender];
        i := i + 1;
      }
      assert found[..|found|] == found;
      MergeVoicesFacts(old(availableVoices), found);
    }
  }
}
