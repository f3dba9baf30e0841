/** The link button of the rich-text editor
    (`my-resume-builder/src/components/Editor.tsx`): the text typed into
    the link box becomes the link's target, with a scheme added when it
    has none. Applying the link to the editor is outside the model. */
module LinkEditor {
  import opened Wrappers
  import opened Strings

  /** `/^https?:\/\//`: the text starts with "http://" or "https://",
      in lower case. */
  predicate HasScheme(url: string) {
    StartsWith(url, "http://") || StartsWith(url, "https://")
  }

  /** `handleSetLink`'s target: a missing input reads as "", an empty
      value stays empty, and any other value without a scheme gets
      "https://" in front. */
  function NormalizeLink(input: Option<string>): (href: string)
    ensures input.None? ==> href == ""
    ensures input.Some? && input.value == "" ==> href == ""
    ensures input.Some? && HasScheme(input.value) ==> href == input.value
    ensures input.Some? && input.value != "" && !HasScheme(input.value) ==>
      href == "https://" + input.value
  {
    var url := input.GetOr("");
    if url != "" && !HasScheme(url) then "https://" + url else url
  }

  /** A non-empty target always carries a scheme, and the typed text is
      always its tail. */
  lemma NormalizedHasScheme(input: Option<string>)
    ensures NormalizeLink(input) == "" || HasScheme(NormalizeLink(input))
    ensures input.Some? ==> |input.value| <= |NormalizeLink(input)|
    ensures input.Some? ==> NormalizeLink(input)[|NormalizeLink(input)| - |input.value|..] == input.value
  {
    var href := NormalizeLink(input);
    if input.Some? && input.value != "" && !HasScheme(input.value) {
      assert href[..|"https://"|] == "https://";
    }
  }

  /** Setting a link to its own target changes nothing. */
  lemma NormalizeIdempotent(input: Option<string>)
    ensures NormalizeLink(Some(NormalizeLink(input))) == NormalizeLink(input)
  {
    NormalizedHasScheme(input);
  }

  /** The scheme test is case-sensitive: an upper-case scheme is not
      recognised and gets a second one in front. */
  lemma UpperCaseSchemeIsPrefixed()
    ensures NormalizeLink(Some("HTTPS://a.io")) == "https://HTTPS://a.io"
  {
    assert !StartsWith("HTTPS://a.io", "https://") by {
      assert "HTTPS://a.io"[0] != "https://"[0];
    }
    assert !StartsWith("HTTPS://a.io", "http://") by {
      assert "HTTPS://a.io"[0] != "http://"[0];
    }
  }
}
