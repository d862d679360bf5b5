/**
 * System settings (components/SettingsView.tsx, with the defaults of App.tsx):
 * reading a setting by key, flipping a switch, editing a text field, the
 * page's working copy and its save, and the factory defaults.
 */
module Settings {
  import opened Types

  /** Whether a switch is on; a missing switch is `undefined`, which is falsy. */
  predicate Flag(s: SystemSettings, f: FlagKey) {
    f in s.flags && s.flags[f]
  }

  /** `settings[key]` for a text field. */
  function TextOf(s: SystemSettings, t: TextKey): string {
    match t
    case BusinessName => s.businessName
    case BaseCurrency => s.baseCurrency
    case PrimaryLanguage => s.primaryLanguage
  }

  /** `settings[key]` for any key. */
  function GetSetting(s: SystemSettings, k: SettingKey): SettingValue {
    match k
    case FlagSetting(f) => if f in s.flags then BoolValue(s.flags[f]) else Undefined
    case TextSetting(t) => TextValue(TextOf(s, t))
  }

  /** Two settings records that agree on every key are the same record. */
  lemma SettingsExtensional(s: SystemSettings, u: SystemSettings)
    requires forall k :: GetSetting(s, k) == GetSetting(u, k)
    ensures s == u
  {
    forall f ensures f in s.flags <==> f in u.flags {
      assert GetSetting(s, FlagSetting(f)) == GetSetting(u, FlagSetting(f));
    }
    forall f | f in s.flags ensures s.flags[f] == u.flags[f] {
      assert GetSetting(s, FlagSetting(f)) == GetSetting(u, FlagSetting(f));
    }
    assert GetSetting(s, TextSetting(BusinessName)) == GetSetting(u, TextSetting(BusinessName));
    assert GetSetting(s, TextSetting(BaseCurrency)) == GetSetting(u, TextSetting(BaseCurrency));
    assert GetSetting(s, TextSetting(PrimaryLanguage)) == GetSetting(u, TextSetting(PrimaryLanguage));
  }

  /**
   * `handleToggle`: a switch holding a boolean is negated and nothing else
   * changes; a text field, or a switch the record lacks, fails the
   * `typeof … === 'boolean'` guard and is left alone.
   */
  function HandleToggle(s: SystemSettings, k: SettingKey): (r: SystemSettings)
    ensures k.TextSetting? || k.flag !in s.flags ==> r == s
    ensures k.FlagSetting? && k.flag in s.flags ==> GetSetting(r, k) == BoolValue(!s.flags[k.flag])
    ensures forall k' | k' != k :: GetSetting(r, k') == GetSetting(s, k')
  {
    match k
    case FlagSetting(f) => if f in s.flags then s.(flags := s.flags[f := !s.flags[f]]) else s
    case TextSetting(_) => s
  }

  /** Toggling the same key twice restores the settings. */
  lemma ToggleTwice(s: SystemSettings, k: SettingKey)
    ensures HandleToggle(HandleToggle(s, k), k) == s
  {
    var r := HandleToggle(HandleToggle(s, k), k);
    forall k' ensures GetSetting(r, k') == GetSetting(s, k') {
    }
    SettingsExtensional(r, s);
  }

  /** `{...settings, [key]: value}` for a text field (`handleChange`): that field reads `value`, nothing else changes. */
  function HandleChange(s: SystemSettings, t: TextKey, value: string): (r: SystemSettings)
    ensures GetSetting(r, TextSetting(t)) == TextValue(value)
    ensures forall k | k != TextSetting(t) :: GetSetting(r, k) == GetSetting(s, k)
  {
    match t
    case BusinessName => s.(businessName := value)
    case BaseCurrency => s.(baseCurrency := value)
    case PrimaryLanguage => s.(primaryLanguage := value)
  }

  /** Typing back the value a text field had restores the settings. */
  lemma ChangeBackRestores(s: SystemSettings, t: TextKey, value: string)
    ensures HandleChange(HandleChange(s, t, value), t, TextOf(s, t)) == s
  {
    var r := HandleChange(HandleChange(s, t, value), t, TextOf(s, t));
    forall k ensures GetSetting(r, k) == GetSetting(s, k) {
    }
    SettingsExtensional(r, s);
  }

  /** One edit made on the settings page: flipping a switch or typing into a text field. */
  datatype PageEdit = Toggle(key: SettingKey) | Change(field: TextKey, value: string)

  /** An edit applied to a settings record. */
  function ApplyEdit(s: SystemSettings, e: PageEdit): SystemSettings {
    match e
    case Toggle(k) => HandleToggle(s, k)
    case Change(t, value) => HandleChange(s, t, value)
  }

  /** A series of edits applied to a settings record, first edit first. */
  function ApplyEdits(s: SystemSettings, edits: seq<PageEdit>): SystemSettings
    decreases |edits|
  {
    if |edits| == 0 then s else ApplyEdits(ApplyEdit(s, edits[0]), edits[1..])
  }

  /**
   * The settings page against the application: `stored` is the shell's
   * settings record, `local` the page's working copy (`localSettings`).
   */
  datatype SettingsPage = SettingsPage(stored: SystemSettings, local: SystemSettings)

  /** Opening the page: the working copy starts as the stored record. */
  function OpenPage(stored: SystemSettings): (r: SettingsPage)
    ensures r.stored == stored && r.local == stored
  {
    SettingsPage(stored, stored)
  }

  /** `handleToggle` and `handleChange` work on the working copy; the stored record is not touched. */
  function EditPage(page: SettingsPage, e: PageEdit): (r: SettingsPage)
    ensures r.stored == page.stored
    ensures r.local == ApplyEdit(page.local, e)
  {
    page.(local := ApplyEdit(page.local, e))
  }

  function EditPageAll(page: SettingsPage, edits: seq<PageEdit>): SettingsPage
    decreases |edits|
  {
    if |edits| == 0 then page else EditPageAll(EditPage(page, edits[0]), edits[1..])
  }

  /**
   * `handleSave` once its delay has passed: `onSave(localSettings)`, which the
   * shell wires to `setSettings`, so the working copy becomes the stored record.
   */
  function SavePage(page: SettingsPage): (r: SettingsPage)
    ensures r.stored == page.local && r.local == page.local
  {
    SettingsPage(page.local, page.local)
  }

  /** However many edits are made on the page, the stored record stays as it was until a save. */
  lemma {:induction false} EditsStayLocal(page: SettingsPage, edits: seq<PageEdit>)
    ensures EditPageAll(page, edits).stored == page.stored
    ensures EditPageAll(page, edits).local == ApplyEdits(page.local, edits)
    decreases |edits|
  {
    if |edits| > 0 {
      EditsStayLocal(EditPage(page, edits[0]), edits[1..]);
    }
  }

  /**
   * Opening the page, making edits and saving stores exactly those edits
   * applied to the record the page opened with; saving again changes nothing.
   */
  lemma SaveStoresEdits(stored: SystemSettings, edits: seq<PageEdit>)
    ensures SavePage(EditPageAll(OpenPage(stored), edits)).stored == ApplyEdits(stored, edits)
    ensures SavePage(SavePage(EditPageAll(OpenPage(stored), edits))) == SavePage(EditPageAll(OpenPage(stored), edits))
  {
    EditsStayLocal(OpenPage(stored), edits);
  }

  /** Saving with no edits, or after toggling a switch twice, leaves the stored record as it was. */
  lemma SaveUneditedKeepsSettings(stored: SystemSettings, k: SettingKey)
    ensures SavePage(OpenPage(stored)).stored == stored
    ensures SavePage(EditPage(EditPage(OpenPage(stored), Toggle(k)), Toggle(k))).stored == stored
  {
    ToggleTwice(stored, k);
  }

  /**
   * The settings the application starts with when nothing is stored. The
   * currency label keeps the characters App.tsx:103 holds, where the cedi
   * sign (U+20B5) was saved mis-encoded as three characters.
   */
  const DefaultSettings: SystemSettings := SystemSettings(
    "GeminiPOS Pro",
    map[
      ManagerAccessToUsers := true,
      ManagerAccessToInventory := true,
      ManagerAccessToReports := true,
      ManagerAccessToPnL := true,
      ManagerAccessToExpenses := true,
      ManagerAccessToPurchases := true,
      ManagerAccessToCustomers := true,
      ManagerAccessToWarehouse := true,
      ManagerAccessToAiAssistant := true,
      ManagerAccessToCreativeStudio := true,
      ManagerAccessToOpsBoard := true,
      ManagerAccessToReturns := true,
      CashierAccessToInventory := true,
      AllowTransactionDeletion := false,
      LockSystemCurrency := true],
    "GHS (GH\U{E2}\U{201A}\U{B5})",
    "English (Ghana)")

  /**
   * Out of the box every switch holds a boolean, every access switch is on,
   * transaction deletion is off and the currency is locked.
   */
  lemma DefaultsGrantAccess()
    ensures forall f :: f in DefaultSettings.flags
    ensures forall f | f != AllowTransactionDeletion :: Flag(DefaultSettings, f)
    ensures !Flag(DefaultSettings, AllowTransactionDeletion)
  {
    forall f ensures f in DefaultSettings.flags && (Flag(DefaultSettings, f) <==> f != AllowTransactionDeletion) {
      match f
      case ManagerAccessToUsers =>
      case ManagerAccessToInventory =>
      case ManagerAccessToReports =>
      case ManagerAccessToPnL =>
      case ManagerAccessToExpenses =>
      case ManagerAccessToPurchases =>
      case ManagerAccessToCustomers =>
      case ManagerAccessToWarehouse =>
      case ManagerAccessToAiAssistant =>
      case ManagerAccessToCreativeStudio =>
      case ManagerAccessToOpsBoard =>
      case ManagerAccessToReturns =>
      case CashierAccessToInventory =>
      case AllowTransactionDeletion =>
      case LockSystemCurrency =>
    }
  }
}
