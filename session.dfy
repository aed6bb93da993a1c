/** The app's session state: the ingredient list the buttons edit in place
    and the slot holding the last generated recipes. Each button handler is
    a method; the text it works on and the service's answer are its
    parameters. */
module Session {
  import opened Text
  import opened Ingredients
  import opened Prompt

  /** What the text-generation call gave back: it raised an exception, or it
      returned a response whose text may be empty. */
  datatype Response = Raised(message: string) | Returned(text: string)

  /** Whether a response replaces the stored recipes: only a returned,
      non-empty text does. */
  predicate Replaces(response: Response) {
    response.Returned? && response.text != ""
  }

  class SessionState {
    /** `ingredients_list`: ordered, duplicates allowed. */
    var ingredients: seq<string>
    /** `recipes`: the last generated text; empty when there is none. */
    var recipes: string

    /** A fresh session has no ingredients and no recipes. */
    constructor ()
      ensures ingredients == [] && recipes == ""
    {
      ingredients := [];
      recipes := "";
    }

    /** "Add Ingredient": nothing happens for empty input; otherwise the
        stripped input is appended, even when stripping leaves nothing. */
    method AddSingle(raw: string)
      modifies this
      ensures raw == "" ==> ingredients == old(ingredients)
      ensures raw != "" ==> ingredients == old(ingredients) + [Strip(raw)]
      ensures AllClean(old(ingredients)) && !AllSpace(raw) ==> AllClean(ingredients)
      ensures recipes == old(recipes)
    {
      if raw != "" {
        ingredients := ingredients + [Strip(raw)];
      }
    }

    /** A quick-add suggestion button; the buttons are only shown while the
        list is empty. */
    method AddSuggestion(k: nat)
      requires k < |Suggestions|
      requires ingredients == []
      modifies this
      ensures ingredients == [Suggestions[k]]
      ensures AllClean(ingredients)
      ensures recipes == old(recipes)
    {
      ingredients := ingredients + [Suggestions[k]];
      SuggestionsAreClean();
    }

    /** "Add All": the parsed entries are appended after the existing ones,
        and `added` is how many there were. Old entries are an unchanged
        prefix, and a clean list stays clean. */
    method AddMany(raw: string) returns (added: nat)
      modifies this
      ensures ingredients == old(ingredients) + ParseMany(raw)
      ensures added == |ParseMany(raw)| && |ingredients| == |old(ingredients)| + added
      ensures raw == "" ==> ingredients == old(ingredients) && added == 0
      ensures ingredients[..|old(ingredients)|] == old(ingredients)
      ensures AllClean(old(ingredients)) ==> AllClean(ingredients)
      ensures recipes == old(recipes)
    {
      added := 0;
      if raw != "" {
        var items := ParseMany(raw);
        ingredients := ingredients + items;
        added := |items|;
      }
    }

    /** The remove button next to entry `i`; `i` always indexes the current
        list. Exactly that entry leaves, the others keep their order. */
    method RemoveAt(i: nat)
      requires i < |ingredients|
      modifies this
      ensures ingredients == old(ingredients[..i] + ingredients[i + 1..])
      ensures |ingredients| == |old(ingredients)| - 1
      ensures multiset(ingredients) + multiset{old(ingredients[i])} == multiset(old(ingredients))
      ensures AllClean(old(ingredients)) ==> AllClean(ingredients)
      ensures recipes == old(recipes)
    {
      assert ingredients == ingredients[..i] + [ingredients[i]] + ingredients[i + 1..];
      ingredients := ingredients[..i] + ingredients[i + 1..];
    }

    /** "Clear All". */
    method Clear()
      modifies this
      ensures ingredients == []
      ensures recipes == old(recipes)
    {
      ingredients := [];
    }

    /** "Generate Recipes", shown only while the list is not empty: builds
        the prompt from the list and the preferences, and stores the
        response text when the service returned a non-empty one; an
        exception or an empty text leaves the stored recipes as they were. */
    method GenerateRecipes(prefs: Preferences, response: Response) returns (prompt: string)
      requires ingredients != []
      modifies this
      ensures prompt == BuildPrompt(ingredients, prefs)
      ensures Replaces(response) ==> recipes == response.text
      ensures !Replaces(response) ==> recipes == old(recipes)
      ensures ingredients == old(ingredients)
    {
      prompt := BuildPrompt(ingredients, prefs);
      match response {
        case Raised(_) =>
        case Returned(text) =>
          if text != "" {
            recipes := text;
          }
      }
    }

    /** "Generate New": forgets the stored recipes. */
    method GenerateNew()
      modifies this
      ensures recipes == ""
      ensures ingredients == old(ingredients)
    {
      recipes := "";
    }
  }
}
