/**
 * Named presets of CAN-ID text, kept in a JSON file that maps each preset
 * name to the identifier text it stands for. The file is read afresh by every
 * operation; a file that is missing or cannot be read counts as holding no
 * presets at all.
 */
module Presets {
  import opened Wrappers
  import opened PyStr

  /** Preset name to the CAN-ID text saved under it. */
  type PresetMap = map<string, string>

  /** The warnings and errors the preset operations report. */
  datatype PresetError =
    | EmptyPresetName    // "Please enter a preset name."
    | EmptyCanIds        // "Please enter CAN IDs to save."
    | WriteFailed        // "Failed to save preset"
    | NoPresetSelected   // "Please select a preset to load."
    | PresetNotFound     // "Preset not found!"

  /**
   * `load_presets_from_file`: the stored presets, where `None` stands for a
   * file that does not exist or does not parse; both read as no presets.
   */
  function LoadPresets(stored: Option<PresetMap>): PresetMap {
    match stored
    case None => map[]
    case Some(presets) => presets
  }

  /**
   * The validation and update of `save_preset`: the name and the identifier
   * text are stripped, each must be non-empty (the name is checked first), and
   * the stored presets gain or overwrite the entry for the name.
   */
  function WithPreset(stored: Option<PresetMap>, nameEntry: string, idsEntry: string): (r: Result<PresetMap, PresetError>)
    ensures Strip(nameEntry) == [] ==> r == Failure(EmptyPresetName)
    ensures Strip(nameEntry) != [] && Strip(idsEntry) == [] ==> r == Failure(EmptyCanIds)
    ensures r.Success? <==> Strip(nameEntry) != [] && Strip(idsEntry) != []
    ensures r.Success? ==> r.value.Keys == LoadPresets(stored).Keys + {Strip(nameEntry)}
  {
    var name, ids := Strip(nameEntry), Strip(idsEntry);
    if name == [] then Failure(EmptyPresetName)
    else if ids == [] then Failure(EmptyCanIds)
    else Success(LoadPresets(stored)[name := ids])
  }

  /**
   * The lookup of `load_preset`: the selected name as it stands (not
   * stripped) must be non-empty and present in the stored presets.
   */
  function Lookup(stored: Option<PresetMap>, selection: string): (r: Result<string, PresetError>)
    ensures selection == [] ==> r == Failure(NoPresetSelected)
    ensures selection != [] ==> (r.Success? <==> selection in LoadPresets(stored))
    ensures r.Success? ==> selection in LoadPresets(stored) && r.value == LoadPresets(stored)[selection]
    ensures r.Failure? ==> r.error in {NoPresetSelected, PresetNotFound}
  {
    if selection == [] then Failure(NoPresetSelected)
    else if selection in LoadPresets(stored) then Success(LoadPresets(stored)[selection])
    else Failure(PresetNotFound)
  }

  /** A saved preset is found again under its stripped name, holding the stripped identifier text. */
  lemma SaveThenLoad(stored: Option<PresetMap>, nameEntry: string, idsEntry: string)
    requires WithPreset(stored, nameEntry, idsEntry).Success?
    ensures Lookup(Some(WithPreset(stored, nameEntry, idsEntry).value), Strip(nameEntry)) == Success(Strip(idsEntry))
  {
  }

  /** Saving one preset leaves every other preset as it was, present or absent. */
  lemma SaveKeepsOthers(stored: Option<PresetMap>, nameEntry: string, idsEntry: string, other: string)
    requires WithPreset(stored, nameEntry, idsEntry).Success?
    requires other != Strip(nameEntry)
    ensures Lookup(Some(WithPreset(stored, nameEntry, idsEntry).value), other) == Lookup(stored, other)
  {
  }

  /** Saving into a missing or unreadable file starts a fresh file holding only the new preset. */
  lemma SaveIntoMissingFile(nameEntry: string, idsEntry: string)
    requires Strip(nameEntry) != [] && Strip(idsEntry) != []
    ensures WithPreset(None, nameEntry, idsEntry) == Success(map[Strip(nameEntry) := Strip(idsEntry)])
  {
  }

  /** Saving the same preset a second time changes nothing more. */
  lemma SaveIdempotent(stored: Option<PresetMap>, nameEntry: string, idsEntry: string)
    requires WithPreset(stored, nameEntry, idsEntry).Success?
    ensures var once := WithPreset(stored, nameEntry, idsEntry).value;
            WithPreset(Some(once), nameEntry, idsEntry) == Success(once)
  {
    var once := WithPreset(stored, nameEntry, idsEntry).value;
    var name := Strip(nameEntry);
    assert once[name := Strip(idsEntry)] == once;
  }

  /** Padding around the name or the identifier text does not change what is saved. */
  lemma SaveStripsEntries(stored: Option<PresetMap>, nameEntry: string, idsEntry: string)
    ensures WithPreset(stored, Strip(nameEntry), Strip(idsEntry)) == WithPreset(stored, nameEntry, idsEntry)
  {
    StripIdempotent(nameEntry);
    StripIdempotent(idsEntry);
  }

  /**
   * The part of the tool's window that the preset operations touch: the
   * preset-name and CAN-ID entry fields, the choices offered by the preset
   * drop-down, and the presets file.
   */
  class PresetPanel {
    /** The presets file: `None` when it is missing or unreadable. */
    var file: Option<PresetMap>
    var presetNameEntry: string
    var canIdsEntry: string
    /** The names the drop-down offers. */
    var presetChoices: set<string>

    /** The window starts with empty entries and the drop-down filled from the file. */
    constructor (stored: Option<PresetMap>)
      ensures file == stored
      ensures presetNameEntry == [] && canIdsEntry == []
      ensures presetChoices == LoadPresets(stored).Keys
    {
      file := stored;
      presetNameEntry := [];
      canIdsEntry := [];
      presetChoices := LoadPresets(stored).Keys;
    }

    /** `load_preset_list`: the drop-down offers the names in the file. */
    method LoadPresetList()
      modifies this
      ensures presetChoices == LoadPresets(file).Keys
      ensures file == old(file) && presetNameEntry == old(presetNameEntry) && canIdsEntry == old(canIdsEntry)
    {
      presetChoices := LoadPresets(file).Keys;
    }

    /**
     * `save_preset`: on a valid name and identifier text, the file is
     * rewritten with the preset added, the drop-down refreshed and the name
     * entry cleared. `writeSucceeds` says whether writing the file works;
     * when it does not, or the entries are invalid, nothing changes.
     */
    method SavePreset(writeSucceeds: bool) returns (outcome: Outcome<PresetError>)
      modifies this
      ensures var r := WithPreset(old(file), old(presetNameEntry), old(canIdsEntry));
              if r.Failure? then outcome == Fail(r.error) && unchanged(this)
              else if !writeSucceeds then outcome == Fail(WriteFailed) && unchanged(this)
              else outcome == Pass && file == Some(r.value) && presetChoices == r.value.Keys
                   && presetNameEntry == [] && canIdsEntry == old(canIdsEntry)
    {
      var r := WithPreset(file, presetNameEntry, canIdsEntry);
      if r.Failure? {
        return Fail(r.error);
      }
      if !writeSucceeds {
        return Fail(WriteFailed);
      }
      file := Some(r.value);
      LoadPresetList();
      presetNameEntry := [];
      outcome := Pass;
    }

    /**
     * `load_preset`: the preset selected in the drop-down is looked up in the
     * file and its identifier text replaces the CAN-ID entry.
     */
    method LoadPreset(selection: string) returns (outcome: Outcome<PresetError>)
      modifies this
      ensures var r := Lookup(old(file), selection);
              if r.Failure? then outcome == Fail(r.error) && unchanged(this)
              else outcome == Pass && canIdsEntry == r.value
                   && file == old(file) && presetNameEntry == old(presetNameEntry) && presetChoices == old(presetChoices)
    {
      var r := Lookup(file, selection);
      if r.Failure? {
        return Fail(r.error);
      }
      canIdsEntry := r.value;
      outcome := Pass;
    }
  }
}
