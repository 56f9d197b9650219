/**
 * `TTSSettings`: the voice and rate controls saved to, and restored from, one
 * entry of `localStorage`. The stored entry is the record `saveSettings`
 * writes (the JSON text round-trips through `JSON.stringify` and
 * `JSON.parse`); storage is a map from keys to such records.
 */
module TTSSettings {

  const StorageKey: string := "ttsSettings"

  /** `{ voiceShortName, rate }` as stored. */
  datatype Settings = Settings(voiceShortName: string, rate: string)

  /** The two controls: the voice `<select>`'s value and its option values, and the rate input's value. */
  datatype Controls = Controls(voice: string, options: seq<string>, rate: string)

  type Storage = map<string, Settings>

  /** `saveSettings()`: the current control values, under `"ttsSettings"`, and nothing else touched. */
  function SaveSettings(c: Controls, storage: Storage): (r: Storage)
    ensures StorageKey in r && r[StorageKey] == Settings(c.voice, c.rate)
    ensures forall k :: k != StorageKey ==> (k in r <==> k in storage) && (k in r ==> r[k] == storage[k])
  {
    storage[StorageKey := Settings(c.voice, c.rate)]
  }

  /**
   * `loadSettings()`: nothing stored reads as `{}`. The voice is taken when it
   * is non-empty and names an existing option; the rate when it is non-empty.
   */
  function LoadSettings(c: Controls, storage: Storage): (r: Controls)
    ensures r.options == c.options
    ensures r.voice != c.voice ==>
      StorageKey in storage && r.voice == storage[StorageKey].voiceShortName && r.voice != [] && r.voice in c.options
    ensures StorageKey in storage && storage[StorageKey].voiceShortName != [] && storage[StorageKey].voiceShortName in c.options
      ==> r.voice == storage[StorageKey].voiceShortName
    ensures r.rate != c.rate ==> StorageKey in storage && r.rate == storage[StorageKey].rate && r.rate != []
    ensures StorageKey in storage && storage[StorageKey].rate != [] ==> r.rate == storage[StorageKey].rate
  {
    var settings := if StorageKey in storage then storage[StorageKey] else Settings([], []);
    var voice := if settings.voiceShortName != [] && settings.voiceShortName in c.options then settings.voiceShortName else c.voice;
    var rate := if settings.rate != [] then settings.rate else c.rate;
    Controls(voice, c.options, rate)
  }

  /** With nothing stored, loading changes neither control. */
  lemma LoadNothing(c: Controls, storage: Storage)
    requires StorageKey !in storage
    ensures LoadSettings(c, storage) == c
  {
  }

  /**
   * Saving and then loading, with the same option list, restores both controls
   * whenever both were non-empty and the voice was one of the options, however
   * the controls changed in between.
   */
  lemma SaveThenLoad(saved: Controls, later: Controls, storage: Storage)
    requires saved.voice != [] && saved.voice in saved.options && saved.rate != []
    requires later.options == saved.options
    ensures LoadSettings(later, SaveSettings(saved, storage)) == saved
  {
  }

  /** An empty voice or rate is not restored: the later control keeps its value. */
  lemma EmptyNotRestored(saved: Controls, later: Controls, storage: Storage)
    requires saved.voice == [] || saved.rate == []
    ensures var r := LoadSettings(later, SaveSettings(saved, storage));
      (saved.voice == [] ==> r.voice == later.voice) && (saved.rate == [] ==> r.rate == later.rate)
  {
  }

  /** A voice that is no longer among the options is not restored. */
  lemma MissingVoiceNotRestored(saved: Controls, later: Controls, storage: Storage)
    requires saved.voice !in later.options
    ensures LoadSettings(later, SaveSettings(saved, storage)).voice == later.voice
  {
  }
}
