/** The settings service: it loads the settings file once and keeps what
    it read, rewriting the namespace of connection types from before the
    project was restructured; saving replaces the kept settings. The file
    and JSON deserialisation are oracles. */
module SettingsService {
  import opened Common
  import opened Text
  import opened Models

  /** The settings file: absent, or its text. */
  datatype SettingsFile = Missing | Content(text: string)

  /** What Load gives back: the settings (null when the file holds JSON
      null), or the exception of a malformed file. */
  datatype LoadOutcome = Loaded(settings: Option<Settings>) | LoadThrew

  const LegacyConnectionNamespace: string := "OpenHAB.Core.Model.Connection"
  const ConnectionNamespace: string := "openHAB.Core.Connection"

  /** The rewrite applied before deserialising. */
  function MigrateLegacyNamespace(text: string): (r: string)
    ensures r != text ==> Contains(text, LegacyConnectionNamespace)
    ensures |r| <= |text|
  {
    ReplaceAllNoLonger(text, LegacyConnectionNamespace, ConnectionNamespace);
    if Contains(text, LegacyConnectionNamespace) then ReplaceAll(text, LegacyConnectionNamespace, ConnectionNamespace)
    else text
  }

  /** A file written after the restructuring is read as it is. */
  lemma CurrentFileUnchanged(text: string)
    requires !Contains(text, LegacyConnectionNamespace)
    ensures MigrateLegacyNamespace(text) == text
  {
  }

  /** A file that starts with the legacy name, and holds it nowhere else,
      has that name rewritten. */
  lemma LegacyReferenceRewritten(rest: string)
    requires !Contains(rest, LegacyConnectionNamespace)
    ensures MigrateLegacyNamespace(LegacyConnectionNamespace + rest) == ConnectionNamespace + rest
  {
    var t := LegacyConnectionNamespace + rest;
    assert t[..|LegacyConnectionNamespace|] == LegacyConnectionNamespace;
    assert t[|LegacyConnectionNamespace|..] == rest;
    assert OccursAt(t, LegacyConnectionNamespace, 0);
    ReplaceAbsent(rest, LegacyConnectionNamespace, ConnectionNamespace);
  }

  /** Load as a function of the kept settings and the file: the result,
      the settings kept afterwards, and the text handed to the
      deserialiser, if any. */
  datatype LoadStep = LoadStep(outcome: LoadOutcome, kept: Option<Settings>, deserialised: Option<string>)

  function LoadSettings(kept: Option<Settings>, file: SettingsFile, deserialize: string -> JsonRead<Settings>): (r: LoadStep)
    // kept settings are returned without touching the file
    ensures kept.Some? ==> r == LoadStep(Loaded(kept), kept, None)
    // a missing or empty file gives fresh defaults, which are not kept
    ensures kept.None? && (file.Missing? || file.text == "") ==> r == LoadStep(Loaded(Some(DefaultSettings())), None, None)
    // otherwise the rewritten text is deserialised and its result kept
    ensures kept.None? && file.Content? && file.text != "" ==>
      r.deserialised == Some(MigrateLegacyNamespace(file.text))
      && match deserialize(MigrateLegacyNamespace(file.text))
         case Malformed => r.outcome == LoadThrew && r.kept == None
         case JsonNull => r.outcome == Loaded(None) && r.kept == None
         case Parsed(s) => r.outcome == Loaded(Some(s)) && r.kept == Some(s)
  {
    if kept.Some? then LoadStep(Loaded(kept), kept, None)
    else if file.Missing? || file.text == "" then LoadStep(Loaded(Some(DefaultSettings())), None, None)
    else
      var text := MigrateLegacyNamespace(file.text);
      match deserialize(text)
      case Malformed => LoadStep(LoadThrew, None, Some(text))
      case JsonNull => LoadStep(Loaded(None), None, Some(text))
      case Parsed(s) => LoadStep(Loaded(Some(s)), Some(s), Some(text))
  }

  /** Once settings are kept, loading again changes nothing and returns
      them, whatever the file now says. */
  lemma LoadIsStable(kept: Option<Settings>, file: SettingsFile, later: SettingsFile, deserialize: string -> JsonRead<Settings>)
    requires LoadSettings(kept, file, deserialize).kept.Some?
    ensures var first := LoadSettings(kept, file, deserialize);
      LoadSettings(first.kept, later, deserialize) == LoadStep(first.outcome, first.kept, None)
  {
  }

  /** The language the program switches to: the argument if non-empty, else
      the saved language if non-empty, else the first user-preferred one. */
  function ProgramLanguage(langcode: Option<string>, saved: Option<string>, preferred: seq<string>): (r: Option<string>)
    ensures !IsNullOrEmpty(langcode) ==> r == langcode
    ensures IsNullOrEmpty(langcode) && !IsNullOrEmpty(saved) ==> r == saved
    ensures IsNullOrEmpty(langcode) && IsNullOrEmpty(saved) ==> r == (if preferred == [] then None else Some(preferred[0]))
    ensures r.Some? ==> r.value != "" || (preferred != [] && r.value == preferred[0])
  {
    var code := if IsNullOrEmpty(langcode) then saved else langcode;
    if !IsNullOrEmpty(code) then code
    else if preferred == [] then None
    else Some(preferred[0])
  }

  /** SetProgramLanguage either sets a culture or throws (the settings to
      fall back on are null or unreadable, or there is no preferred
      language). */
  datatype LanguageOutcome = CultureSet(code: string) | LanguageFailed

  class SettingsService {
    /** The kept settings (`_settings`); None while nothing is kept. */
    var kept: Option<Settings>

    constructor ()
      ensures kept.None?
    {
      kept := None;
    }

    /** Load, proved against LoadSettings. */
    method Load(file: SettingsFile, deserialize: string -> JsonRead<Settings>) returns (r: LoadOutcome)
      modifies this
      ensures var step := LoadSettings(old(kept), file, deserialize);
        r == step.outcome && kept == step.kept
    {
      if kept.Some? {
        return Loaded(kept);
      }
      if file.Missing? {
        return Loaded(Some(DefaultSettings()));
      }
      var fileContent := file.text;
      if fileContent == "" {
        return Loaded(Some(DefaultSettings()));
      }
      if Contains(fileContent, LegacyConnectionNamespace) {
        fileContent := ReplaceAll(fileContent, LegacyConnectionNamespace, ConnectionNamespace);
      }
      match deserialize(fileContent) {
        case Malformed => r := LoadThrew;
        case JsonNull =>
          kept := None;
          r := Loaded(None);
        case Parsed(s) =>
          kept := Some(s);
          r := Loaded(Some(s));
      }
    }

    /** Save: the settings are kept before they are written, so they are
        what the next Load returns even when writing fails; the result is
        whether writing succeeded. */
    method Save(settings: Settings, writeSucceeds: bool) returns (ok: bool)
      modifies this
      ensures kept == Some(settings) && ok == writeSucceeds
      ensures forall file, deserialize :: LoadSettings(kept, file, deserialize).outcome == Loaded(Some(settings))
    {
      kept := Some(settings);
      return writeSucceeds;
    }

    /** SetProgramLanguage: an empty argument loads the settings for their
        language (which throws when they are null or unreadable); the
        language is then chosen by ProgramLanguage. */
    method SetProgramLanguage(langcode: Option<string>, file: SettingsFile, deserialize: string -> JsonRead<Settings>,
                              preferred: seq<string>)
      returns (r: LanguageOutcome)
      modifies this
      ensures !IsNullOrEmpty(langcode) ==> r == CultureSet(langcode.value) && kept == old(kept)
      ensures IsNullOrEmpty(langcode) ==>
        var step := LoadSettings(old(kept), file, deserialize);
        kept == step.kept
        && (step.outcome == LoadThrew || step.outcome == Loaded(None) ==> r == LanguageFailed)
        && (step.outcome.Loaded? && step.outcome.settings.Some? ==>
              var lang := ProgramLanguage(langcode, step.outcome.settings.value.appLanguage, preferred);
              r == if lang.Some? then CultureSet(lang.value) else LanguageFailed)
    {
      var code := langcode;
      if IsNullOrEmpty(code) {
        var loaded := Load(file, deserialize);
        if loaded.LoadThrew? || loaded.settings.None? {
          return LanguageFailed;
        }
        code := loaded.settings.value.appLanguage;
      }
      if !IsNullOrEmpty(code) {
        return CultureSet(code.value);
      }
      if preferred == [] {
        return LanguageFailed;
      }
      return CultureSet(preferred[0]);
    }
  }
}
