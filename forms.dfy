/**
 * `dashboard/forms.py`: the language choices offered to users and the fields
 * of the profile-editing form.
 */
module Forms {
  /** An entry of `settings.LANGUAGES`: a language code and its display name. */
  type Language = (string, string)

  /** `_enabled_languages_as_tuple`: the `LANGUAGES` entries whose code is in `ENABLED_LANGUAGES`, in order. */
  function EnabledLanguages(languages: seq<Language>, enabled: seq<string>): seq<Language> {
    if languages == [] then []
    else if languages[0].0 in enabled then [languages[0]] + EnabledLanguages(languages[1..], enabled)
    else EnabledLanguages(languages[1..], enabled)
  }

  /** `a` is `b` with some entries left out, the rest kept in order. */
  predicate IsSubsequence<T(==)>(a: seq<T>, b: seq<T>)
    decreases |b|
  {
    if a == [] then true
    else if b == [] then false
    else if a[0] == b[0] then IsSubsequence(a[1..], b[1..])
    else IsSubsequence(a, b[1..])
  }

  /** A subsequence of the tail of `b` is a subsequence of `b`. */
  lemma {:induction false} SubsequenceOfTail<T>(a: seq<T>, b: seq<T>)
    requires b != [] && IsSubsequence(a, b[1..])
    ensures IsSubsequence(a, b)
    decreases |b|, 0
  {
    if a != [] && a[0] == b[0] {
      DropHead(a, b[1..]);
    }
  }

  /** Leaving out the first entry of a subsequence keeps it a subsequence. */
  lemma {:induction false} DropHead<T>(a: seq<T>, t: seq<T>)
    requires a != [] && IsSubsequence(a, t)
    ensures IsSubsequence(a[1..], t)
    decreases |t|, 1
  {
    if a[0] == t[0] {
      if a[1..] != [] {
        SubsequenceOfTail(a[1..], t);
      }
    } else {
      DropHead(a, t[1..]);
      if a[1..] != [] {
        SubsequenceOfTail(a[1..], t);
      }
    }
  }

  /**
   * The enabled languages keep the order of `LANGUAGES`; each has an enabled
   * code; every `LANGUAGES` entry with an enabled code is offered, once per
   * occurrence there; and an enabled code absent from `LANGUAGES` offers nothing.
   */
  lemma {:induction false} EnabledLanguagesSpec(languages: seq<Language>, enabled: seq<string>)
    ensures IsSubsequence(EnabledLanguages(languages, enabled), languages)
    ensures forall l :: l in EnabledLanguages(languages, enabled) <==> l in languages && l.0 in enabled
    ensures forall l ::
      multiset(EnabledLanguages(languages, enabled))[l] == (if l.0 in enabled then multiset(languages)[l] else 0)
    decreases |languages|
  {
    if languages != [] {
      var rest := EnabledLanguages(languages[1..], enabled);
      EnabledLanguagesSpec(languages[1..], enabled);
      assert languages == [languages[0]] + languages[1..];
      if languages[0].0 in enabled {
        assert ([languages[0]] + rest)[1..] == rest;
      } else {
        SubsequenceOfTail(rest, languages);
      }
    }
  }

  /** A form field: its name and whether the form renders it read-only. */
  datatype FormField = FormField(name: string, disabled: bool)

  /** `CommonUsersFields.Meta.fields`. */
  const CommonFields: seq<string> := ["username", "first_name", "last_name", "language", "email"]

  /** `EditProfileForm.Meta.fields`: the common fields, then the notification delay. */
  const EditProfileFields: seq<string> := CommonFields + ["notification_delay_days"]

  /** The profile-editing form, once constructed. */
  class EditProfileForm {
    var fields: seq<FormField>
    /** The choices of the `language` field. */
    var languageChoices: seq<Language>

    /**
     * `EditProfileForm.__init__`: the fields of `Meta.fields` (no password),
     * with only `username` disabled; `language` offers the enabled languages.
     */
    constructor (languages: seq<Language>, enabled: seq<string>)
      ensures |fields| == |EditProfileFields|
      ensures forall i :: 0 <= i < |fields| ==> fields[i].name == EditProfileFields[i]
      ensures forall i :: 0 <= i < |fields| ==> (fields[i].disabled <==> fields[i].name == "username")
      ensures languageChoices == EnabledLanguages(languages, enabled)
    {
      fields := seq(|EditProfileFields|, i requires 0 <= i < |EditProfileFields| => FormField(EditProfileFields[i], false));
      languageChoices := EnabledLanguages(languages, enabled);
      new;
      fields := fields[0 := fields[0].(disabled := true)];
    }
  }

  /** The profile form has no password field and exactly one more field than the common ones. */
  lemma EditProfileFieldsSpec()
    ensures "password" !in EditProfileFields
    ensures EditProfileFields[..|CommonFields|] == CommonFields
    ensures EditProfileFields[|CommonFields|..] == ["notification_delay_days"]
    ensures forall i, j :: 0 <= i < j < |EditProfileFields| ==> EditProfileFields[i] != EditProfileFields[j]
  {
  }
}
