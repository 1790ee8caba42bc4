/**
 * `page_fragments/models.py`: a piece of editable page content in three
 * languages, read in the requested language with a fallback language.
 */
module PageFragments {
  import opened Wrappers

  /** A `PageFragment` row. */
  datatype PageFragment = PageFragment(identifier: string, contentNl: string, contentEn: string, contentFr: string)

  /** `_get_content_field_name`. */
  function ContentFieldName(languageCode: string): string {
    "content_" + languageCode
  }

  /** `getattr(fragment, name)`: the three content fields exist, other `content_…` names do not. */
  function ContentField(f: PageFragment, name: string): (r: Option<string>)
    ensures r.Some? <==> name in {"content_nl", "content_en", "content_fr"}
  {
    if name == "content_nl" then Some(f.contentNl)
    else if name == "content_en" then Some(f.contentEn)
    else if name == "content_fr" then Some(f.contentFr)
    else None
  }

  /** The error `getattr` raises when the fallback language has no content field. */
  datatype AttributeError = AttributeError(name: string)

  /**
   * `get_content_in`: the content in the requested language, or in the
   * fallback language when the requested one has no field or an empty one.
   * The fallback field must exist.
   */
  function GetContentIn(f: PageFragment, fallback: string, languageCode: string): Result<string, AttributeError> {
    match ContentField(f, ContentFieldName(fallback))
    case None => Err(AttributeError(ContentFieldName(fallback)))
    case Some(inFallback) =>
      var translated := match ContentField(f, ContentFieldName(languageCode))
        case Some(c) => c
        case None => inFallback;
      if translated == "" then Ok(inFallback) else Ok(translated)
  }

  lemma ContentFieldNameOf(code: string)
    ensures ContentFieldName(code) == "content_nl" <==> code == "nl"
    ensures ContentFieldName(code) == "content_en" <==> code == "en"
    ensures ContentFieldName(code) == "content_fr" <==> code == "fr"
  {
    var n := ContentFieldName(code);
    assert n[8..] == code;
    assert "content_nl"[8..] == "nl" && "content_en"[8..] == "en" && "content_fr"[8..] == "fr";
  }

  /** The content a supported language code names. */
  function Content(f: PageFragment, code: string): string
    requires code in {"nl", "en", "fr"}
  {
    if code == "nl" then f.contentNl else if code == "en" then f.contentEn else f.contentFr
  }

  /**
   * With a supported fallback language: a supported code with content gets
   * that content; an unsupported code, or a supported one whose content is
   * empty, gets the fallback content.
   */
  lemma GetContentInSpec(f: PageFragment, fallback: string, code: string)
    requires fallback in {"nl", "en", "fr"}
    ensures code in {"nl", "en", "fr"} && Content(f, code) != "" ==> GetContentIn(f, fallback, code) == Ok(Content(f, code))
    ensures code in {"nl", "en", "fr"} && Content(f, code) == "" ==> GetContentIn(f, fallback, code) == Ok(Content(f, fallback))
    ensures code !in {"nl", "en", "fr"} ==> GetContentIn(f, fallback, code) == Ok(Content(f, fallback))
  {
    ContentFieldNameOf(fallback);
    ContentFieldNameOf(code);
  }

  /** A fallback language without a content field makes every lookup fail. */
  lemma UnsupportedFallbackFails(f: PageFragment, fallback: string, code: string)
    requires fallback !in {"nl", "en", "fr"}
    ensures GetContentIn(f, fallback, code).Err?
  {
    ContentFieldNameOf(fallback);
  }

  datatype CleanOutcome = Valid | ValidationError(message: string) | CleanAttributeError(name: string)

  /** `clean`: the fallback language's content is mandatory. */
  function Clean(f: PageFragment, fallback: string): CleanOutcome {
    match ContentField(f, ContentFieldName(fallback))
    case None => CleanAttributeError(ContentFieldName(fallback))
    case Some(c) =>
      if c == "" then ValidationError("Content is mandatory for the fallback language (" + fallback + ")")
      else Valid
  }

  /**
   * `clean` refuses a fragment exactly when its fallback content is empty, and
   * a fragment it accepts never yields empty content, whatever language is asked.
   */
  lemma CleanSpec(f: PageFragment, fallback: string, code: string)
    requires fallback in {"nl", "en", "fr"}
    ensures Clean(f, fallback).ValidationError? <==> Content(f, fallback) == ""
    ensures Clean(f, fallback).Valid? ==> GetContentIn(f, fallback, code).Ok? && GetContentIn(f, fallback, code).value != ""
  {
    ContentFieldNameOf(fallback);
    GetContentInSpec(f, fallback, code);
  }
}
