/** The prompt sent to the text-generation service: a fixed template filled
    with the ingredient list and the sidebar preferences. The template is
    modelled line by line; the prompt is its lines joined by newlines. */
module Prompt {
  import opened Text

  /** The "Number of recipes to generate" slider ranges over 1 to 5. */
  type RecipeCount = n: int | 1 <= n <= 5 witness 3

  /** The sidebar selections, as the widgets return them. */
  datatype Preferences = Preferences(
    cookingTime: string,
    difficulty: string,
    dietary: seq<string>,
    cuisine: string,
    mealType: string,
    recipeCount: RecipeCount)

  /** The decimal text of a recipe count: its single digit. */
  function CountText(n: RecipeCount): (r: string)
    ensures |r| == 1 && '1' <= r[0] <= '5'
    ensures r[0] as int - '0' as int == n
  {
    [('0' as int + n) as char]
  }

  /** How the prompt states the number of recipes wanted. */
  function CountPhrase(n: RecipeCount): string {
    "exactly " + CountText(n)
  }

  /** The dietary requirement: the selected tags joined by ", ", or a fixed
      phrase when none is selected. */
  function DietaryText(dietary: seq<string>): string {
    if dietary != [] then "Dietary restrictions: " + Join(dietary, ", ")
    else "No dietary restrictions"
  }

  /** The cuisine line, left blank for "Any". */
  function CuisineText(cuisine: string): string {
    if cuisine != "Any" then "Cuisine preference: " + cuisine else ""
  }

  /** The meal-type line, left blank for "Any". */
  function MealText(mealType: string): string {
    if mealType != "Any" then "Meal type: " + mealType else ""
  }

  /** The fixed list of what each recipe must contain, and the closing
      formatting request. */
  const OutputInstructions: seq<string> := [
    "For each recipe, provide:",
    "1. Recipe Name (creative and appealing)",
    "2. Brief Description (2-3 sentences)",
    "3. Prep Time and Cook Time",
    "4. Servings",
    "5. Complete Ingredients List with measurements",
    "6. Step-by-step Instructions (numbered)",
    "7. Chef's Tips or Variations",
    "8. Nutritional highlights (brief)",
    "",
    "Format the output clearly with headers and bullet points.",
    "Make the recipes practical and delicious!"
  ]

  /** The lines of the "Requirements:" block, one per preference; the
      cuisine and meal-type lines are blank for "Any". */
  function RequirementLines(p: Preferences): seq<string> {
    [ "- Cooking time: " + p.cookingTime,
      "- Difficulty level: " + p.difficulty,
      "- " + DietaryText(p.dietary),
      CuisineText(p.cuisine),
      MealText(p.mealType)
    ]
  }

  /** The template's lines; the first and last are blank because the
      template text starts and ends with a line break. */
  function PromptLines(ingredients: seq<string>, p: Preferences): seq<string> {
    [ "",
      "Create " + CountPhrase(p.recipeCount)
        + " unique and detailed recipes using these ingredients: " + Join(ingredients, ", "),
      "",
      "Requirements:"
    ] + RequirementLines(p) + [""] + OutputInstructions + [""]
  }

  function BuildPrompt(ingredients: seq<string>, p: Preferences): string {
    Join(PromptLines(ingredients, p), "\n")
  }

  /** Some line starts with `prefix`. */
  predicate HasLineStarting(lines: seq<string>, prefix: string) {
    exists k :: 0 <= k < |lines| && StartsWith(lines[k], prefix)
  }

  /** Some line is exactly `line`. */
  predicate HasLine(lines: seq<string>, line: string) {
    exists k :: 0 <= k < |lines| && lines[k] == line
  }

  /** A line of the prompt occurs in the prompt text. */
  lemma LineInPrompt(ingredients: seq<string>, p: Preferences, k: nat)
    requires k < |PromptLines(ingredients, p)|
    ensures IsInfix(PromptLines(ingredients, p)[k], BuildPrompt(ingredients, p))
  {
    ElementInJoin(PromptLines(ingredients, p), "\n", k);
  }

  /** Each requirement line is a line of the prompt, so it occurs in the
      prompt text. */
  lemma RequirementInPrompt(ingredients: seq<string>, p: Preferences, k: nat)
    requires k < 5
    ensures IsInfix(RequirementLines(p)[k], BuildPrompt(ingredients, p))
  {
    assert PromptLines(ingredients, p)[4 + k] == RequirementLines(p)[k];
    LineInPrompt(ingredients, p, 4 + k);
  }

  /** The prompt asks for exactly the selected number of recipes and lists
      the ingredients joined by ", ". */
  lemma PromptStatesCountAndIngredients(ingredients: seq<string>, p: Preferences)
    ensures IsInfix("exactly " + CountText(p.recipeCount), BuildPrompt(ingredients, p))
    ensures IsInfix(Join(ingredients, ", "), BuildPrompt(ingredients, p))
  {
    var line := PromptLines(ingredients, p)[1];
    var prompt := BuildPrompt(ingredients, p);
    var count := CountPhrase(p.recipeCount);
    var middle := " unique and detailed recipes using these ingredients: ";
    var joined := Join(ingredients, ", ");
    LineInPrompt(ingredients, p, 1);
    assert line == "Create " + count + middle + joined;
    assert line == "Create " + count + (middle + joined);
    InfixOfConcat("Create ", count, middle + joined);
    InfixTransitive(count, line, prompt);
    assert line == "Create " + count + middle + joined + "";
    InfixOfConcat("Create " + count + middle, joined, "");
    InfixTransitive(joined, line, prompt);
  }

  /** The cooking-time and difficulty requirements are always stated,
      whatever was selected, "Any" included. */
  lemma PromptStatesTimeAndDifficulty(ingredients: seq<string>, p: Preferences)
    ensures HasLine(RequirementLines(p), "- Cooking time: " + p.cookingTime)
    ensures HasLine(RequirementLines(p), "- Difficulty level: " + p.difficulty)
    ensures IsInfix("- Cooking time: " + p.cookingTime, BuildPrompt(ingredients, p))
    ensures IsInfix("- Difficulty level: " + p.difficulty, BuildPrompt(ingredients, p))
  {
    assert RequirementLines(p)[0] == "- Cooking time: " + p.cookingTime;
    assert RequirementLines(p)[1] == "- Difficulty level: " + p.difficulty;
    RequirementInPrompt(ingredients, p, 0);
    RequirementInPrompt(ingredients, p, 1);
  }

  /** A cuisine requirement is stated exactly when the cuisine is not "Any",
      and then the prompt names the cuisine. */
  lemma CuisineLineUnlessAny(ingredients: seq<string>, p: Preferences)
    ensures HasLineStarting(RequirementLines(p), "Cuisine preference: ") <==> p.cuisine != "Any"
    ensures p.cuisine != "Any" ==> IsInfix("Cuisine preference: " + p.cuisine, BuildPrompt(ingredients, p))
  {
    var lines := RequirementLines(p);
    if p.cuisine != "Any" {
      assert StartsWith(lines[3], "Cuisine preference: ");
      RequirementInPrompt(ingredients, p, 3);
    } else {
      forall k | 0 <= k < |lines| ensures !StartsWith(lines[k], "Cuisine preference: ") {
        if k < 3 {
          DiffersAt(lines[k], "Cuisine preference: ", 0);
        } else if k == 4 {
          DiffersAt(lines[k], "Cuisine preference: ", 0);
        }
      }
    }
  }

  /** A meal-type requirement is stated exactly when the meal type is not
      "Any", and then the prompt names the meal type. */
  lemma MealLineUnlessAny(ingredients: seq<string>, p: Preferences)
    ensures HasLineStarting(RequirementLines(p), "Meal type: ") <==> p.mealType != "Any"
    ensures p.mealType != "Any" ==> IsInfix("Meal type: " + p.mealType, BuildPrompt(ingredients, p))
  {
    var lines := RequirementLines(p);
    if p.mealType != "Any" {
      assert StartsWith(lines[4], "Meal type: ");
      RequirementInPrompt(ingredients, p, 4);
    } else {
      forall k | 0 <= k < |lines| ensures !StartsWith(lines[k], "Meal type: ") {
        if k < 4 {
          DiffersAt(lines[k], "Meal type: ", 0);
        }
      }
    }
  }

  /** The fixed "No dietary restrictions" requirement appears exactly when
      no tag is selected. */
  lemma NoDietaryLine(ingredients: seq<string>, p: Preferences)
    ensures HasLine(RequirementLines(p), "- No dietary restrictions") <==> p.dietary == []
    ensures p.dietary == [] ==> IsInfix("- No dietary restrictions", BuildPrompt(ingredients, p))
  {
    if p.dietary == [] {
      assert RequirementLines(p)[2] == "- No dietary restrictions";
      RequirementInPrompt(ingredients, p, 2);
    } else {
      TagsNoFixedPhrase(p);
    }
  }

  lemma TagsNoFixedPhrase(p: Preferences)
    requires p.dietary != []
    ensures !HasLine(RequirementLines(p), "- No dietary restrictions")
  {
    var lines := RequirementLines(p);
    var none := "- No dietary restrictions";
    forall k | 0 <= k < |lines| ensures lines[k] != none {
      if k < 2 {
        assert lines[k][2] != none[2];
      } else if k == 2 {
        assert lines[k][2] == 'D';
      } else {
        DiffersAt(lines[k], none, 0);
      }
    }
  }

  /** Otherwise the selected tags are stated, joined by ", ". */
  lemma DietaryLine(ingredients: seq<string>, p: Preferences)
    ensures HasLineStarting(RequirementLines(p), "- Dietary restrictions: ") <==> p.dietary != []
    ensures p.dietary != [] ==>
      IsInfix("Dietary restrictions: " + Join(p.dietary, ", "), BuildPrompt(ingredients, p))
  {
    var lines := RequirementLines(p);
    if p.dietary == [] {
      NoTagsNoRestrictions(p);
    } else {
      assert StartsWith(lines[2], "- Dietary restrictions: ");
      RequirementInPrompt(ingredients, p, 2);
      InfixOfConcat("- ", DietaryText(p.dietary), "");
      assert "- " + DietaryText(p.dietary) + "" == lines[2];
      InfixTransitive(DietaryText(p.dietary), lines[2], BuildPrompt(ingredients, p));
    }
  }

  lemma NoTagsNoRestrictions(p: Preferences)
    requires p.dietary == []
    ensures !HasLineStarting(RequirementLines(p), "- Dietary restrictions: ")
  {
    var lines := RequirementLines(p);
    var some := "- Dietary restrictions: ";
    forall k | 0 <= k < |lines| ensures !StartsWith(lines[k], some) {
      if k == 0 || k == 2 {
        DiffersAt(lines[k], some, 2);
      } else if k == 1 {
        assert some[4] == 'e';
        assert lines[k][4] == "- Difficulty level: "[4] == 'f';
        DiffersAt(lines[k], some, 4);
      } else {
        DiffersAt(lines[k], some, 0);
      }
    }
  }

  /** Text that differs from `prefix` at position `i`, or ends before it,
      does not start with `prefix`. */
  lemma DiffersAt(s: string, prefix: string, i: nat)
    requires i < |prefix|
    requires i >= |s| || s[i] != prefix[i]
    ensures !StartsWith(s, prefix)
  {
  }

  /** The worked scenario: three ingredients, three recipes, "30-45 min",
      "Easy"; the prompt names each of them. */
  lemma PromptScenario(p: Preferences)
    requires p.cookingTime == "30-45 min" && p.difficulty == "Easy" && p.recipeCount == 3
    ensures var prompt := BuildPrompt(["Chicken", "Rice", "Garlic"], p);
      IsInfix("Chicken, Rice, Garlic", prompt) && IsInfix("exactly 3", prompt) &&
      IsInfix("30-45 min", prompt) && IsInfix("Easy", prompt)
  {
    var ingredients := ["Chicken", "Rice", "Garlic"];
    var prompt := BuildPrompt(ingredients, p);
    assert Join(ingredients, ", ") == "Chicken, Rice, Garlic";
    assert "exactly " + CountText(p.recipeCount) == "exactly 3";
    PromptStatesCountAndIngredients(ingredients, p);
    PromptStatesTimeAndDifficulty(ingredients, p);
    InfixOfConcat("- Cooking time: ", p.cookingTime, "");
    assert "- Cooking time: " + p.cookingTime + "" == "- Cooking time: " + p.cookingTime;
    InfixTransitive(p.cookingTime, "- Cooking time: " + p.cookingTime, prompt);
    InfixOfConcat("- Difficulty level: ", p.difficulty, "");
    assert "- Difficulty level: " + p.difficulty + "" == "- Difficulty level: " + p.difficulty;
    InfixTransitive(p.difficulty, "- Difficulty level: " + p.difficulty, prompt);
  }
}
