/**
 * Customer-name suggestions: the known customer names are filtered against
 * what has been typed, case-insensitively, keeping their order.
 */
module Autocomplete {
  import Text
  import Sequences

  /**
   * The lower-cased name contains the lower-cased input. An empty input
   * matches every name, and no input longer than the name matches it.
   */
  predicate Matches(name: string, input: string)
    ensures input == [] ==> Matches(name, input)
    ensures |input| > |name| ==> !Matches(name, input)
  {
    Text.Includes(Text.ToLower(name), Text.ToLower(input))
  }

  /** The suggestion list for `input` drawn from the loaded customer names. */
  function Suggestions(options: seq<string>, input: string): (r: seq<string>)
    ensures |r| <= |options|
    ensures forall n :: n in r <==> n in options && Matches(n, input)
  {
    Sequences.FilterMembers(options, n => Matches(n, input));
    Sequences.Filter(options, n => Matches(n, input))
  }

  /** The list is rendered only while the input is active and not empty. */
  predicate SuggestionsShown(showSuggestions: bool, input: string) {
    showSuggestions && input != ""
  }

  /** Suggestions from a concatenation of name lists come in the lists' order. */
  lemma SuggestionsKeepOrder(a: seq<string>, b: seq<string>, input: string)
    ensures Suggestions(a + b, input) == Suggestions(a, input) + Suggestions(b, input)
  {
    Sequences.FilterAppend(a, b, n => Matches(n, input));
  }

  /** A name is suggested exactly when it contains the input at some position, ignoring case. */
  lemma SuggestedIffOccurs(options: seq<string>, input: string, name: string)
    ensures name in Suggestions(options, input)
        <==> name in options && exists i :: Text.OccursAt(Text.ToLower(name), Text.ToLower(input), i)
  {
    Text.IncludesIff(Text.ToLower(name), Text.ToLower(input));
  }

  /** The case of the input does not change the suggestions. */
  lemma {:induction false} SuggestionsIgnoreInputCase(options: seq<string>, input: string)
    ensures Suggestions(options, Text.ToLower(input)) == Suggestions(options, input)
  {
    Text.ToLowerIdempotent(input);
    if options != [] {
      SuggestionsIgnoreInputCase(options[1..], input);
    }
  }

  /** Inputs that differ only in the case of their letters give the same suggestions. */
  lemma SuggestionsIgnoreCase(options: seq<string>, a: string, b: string)
    requires Text.SameIgnoringCase(a, b)
    ensures Suggestions(options, a) == Suggestions(options, b)
  {
    Text.ToLowerIgnoresCase(a, b);
    SuggestionsIgnoreInputCase(options, a);
    SuggestionsIgnoreInputCase(options, b);
  }

  /** An empty input matches every known name. */
  lemma EmptyInputSuggestsAll(options: seq<string>)
    ensures Suggestions(options, "") == options
  {
    assert forall i :: 0 <= i < |options| ==> Matches(options[i], "");
    Sequences.FilterAll(options, n => Matches(n, ""));
  }

  /** A single known name is suggested exactly when it matches. */
  lemma SingleSuggestion(name: string, input: string)
    ensures Suggestions([name], input) == if Matches(name, input) then [name] else []
  {
  }

  lemma AcmeCorpMatches()
    ensures Matches("Acme Corp", "acme")
  {
  }

  lemma AcmeLabsMatches()
    ensures Matches("Acme Labs", "acme")
  {
  }

  lemma ZenithDoesNotMatch()
    ensures !Matches("Zenith", "acme")
  {
    assert Text.ToLower("acme") == "acme";
    assert Text.ToLower("Zenith") == "zenith";
    assert !Text.Includes("ith", "acme");
    assert !Text.Includes("nith", "acme") by {
      assert "nith"[1..] == "ith";
      assert "nith"[0] != "acme"[0];
    }
    assert !Text.Includes("enith", "acme") by {
      assert "enith"[1..] == "nith";
      assert "enith"[0] != "acme"[0];
    }
    assert !Text.Includes("zenith", "acme") by {
      assert "zenith"[1..] == "enith";
      assert "zenith"[0] != "acme"[0];
    }
  }

  /** Typing "acme" against three known customers suggests the two Acme ones, in list order. */
  lemma AcmeExample()
    ensures Suggestions(["Acme Corp", "Acme Labs", "Zenith"], "acme") == ["Acme Corp", "Acme Labs"]
  {
    AcmeCorpMatches();
    AcmeLabsMatches();
    ZenithDoesNotMatch();
    SingleSuggestion("Acme Corp", "acme");
    SingleSuggestion("Acme Labs", "acme");
    SingleSuggestion("Zenith", "acme");
    assert Suggestions(["Acme Corp"], "acme") == ["Acme Corp"];
    assert Suggestions(["Acme Labs"], "acme") == ["Acme Labs"];
    assert Suggestions(["Zenith"], "acme") == [];
    assert ["Acme Corp", "Acme Labs"] == ["Acme Corp"] + ["Acme Labs"];
    SuggestionsKeepOrder(["Acme Corp"], ["Acme Labs"], "acme");
    assert ["Acme Corp", "Acme Labs", "Zenith"] == ["Acme Corp", "Acme Labs"] + ["Zenith"];
    SuggestionsKeepOrder(["Acme Corp", "Acme Labs"], ["Zenith"], "acme");
  }
}
