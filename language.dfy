/** The interface language (calsnap/src/context/LanguageContext.tsx): the
    choice made on start-up, switching it, and the lookup `t` with its
    fall-back to the key. The saved choice, the browser's language and the
    translation table are parameters; the table's contents are not part of
    this model. */
module Language {
  import opened Wrappers
  import opened TextOps

  datatype Lang = En | Id

  function Code(l: Lang): (code: string)
    ensures code == "en" || code == "id"
  {
    match l
    case En => "en"
    case Id => "id"
  }

  /** The start-up choice: a saved code of exactly "en" or "id" wins; any
      other saved value is ignored; then a browser language beginning with
      "id" picks Indonesian; otherwise English. `browserLanguage` is None
      where there is no `navigator`. */
  function InitialLanguage(saved: Option<string>, browserLanguage: Option<string>): (l: Lang)
    ensures saved == Some("en") ==> l == En
    ensures saved == Some("id") ==> l == Id
    ensures saved != Some("en") && saved != Some("id") ==>
      (l == Id <==> browserLanguage.Some? && StartsWith(browserLanguage.value, "id"))
  {
    if saved == Some("en") then En
    else if saved == Some("id") then Id
    else if browserLanguage.Some? && StartsWith(browserLanguage.value, "id") then Id
    else En
  }

  /** A choice once saved is the choice on the next start, whatever the browser says. */
  lemma SavedChoiceSticks(l: Lang, browserLanguage: Option<string>)
    ensures InitialLanguage(Some(Code(l)), browserLanguage) == l
  {
  }

  /** `t(key)`: the translation for the current language, or the key itself
      when the translation is missing or empty. */
  function Translate(table: map<Lang, map<string, string>>, l: Lang, key: string): (r: string)
    ensures l in table && key in table[l] && table[l][key] != "" ==> r == table[l][key]
    ensures !(l in table && key in table[l] && table[l][key] != "") ==> r == key
  {
    if l in table && key in table[l] && table[l][key] != "" then table[l][key] else key
  }

  /** `t` never shows an empty label for a non-empty key. */
  lemma NeverBlank(table: map<Lang, map<string, string>>, l: Lang, key: string)
    requires key != ""
    ensures Translate(table, l, key) != ""
  {
  }

  class Provider {
    var language: Lang
    /** The last code written to local storage, if any. */
    var persisted: Option<string>

    constructor (saved: Option<string>, browserLanguage: Option<string>)
      ensures language == InitialLanguage(saved, browserLanguage) && persisted == None
    {
      language := InitialLanguage(saved, browserLanguage);
      persisted := None;
    }

    /** `handleSetLanguage`: sets and saves the same language, so that the
      next start-up picks it again. */
    method SetLanguage(l: Lang)
      modifies this
      ensures language == l && persisted == Some(Code(l))
      ensures InitialLanguage(persisted, None) == language
    {
      language := l;
      persisted := Some(Code(l));
      SavedChoiceSticks(l, None);
    }
  }
}
