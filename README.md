# Smart Recipe Generator: ingredient list, prompt and recipe slot

The app is a single Streamlit page. A user builds an ingredient list, picks
preferences in a sidebar, and gets recipes written by a text-generation
service. Its logic is written inline in `app.py`. This project models that
logic as four Dafny modules:

- `Text` covers the Python string operations the page relies on:
  `str.strip()` over CPython's whitespace set, `str.split` with a
  one-character separator, `sep.join`, and the substring test. Split and
  join are proved mutual inverses. Strip is characterised as removing
  exactly the surrounding whitespace.
- `Ingredients` covers the "Add Multiple" parser, which splits on commas
  when the text holds one and on newlines otherwise, strips each piece and
  drops empty ones. It also covers the newline-joined export and the
  quick-add suggestions. The parser's guarantees are proved, along with
  the round trip from export back to the same list.
- `Prompt` covers the prompt template, modelled as the list of its lines
  joined by newlines. Lemmas state what the prompt says for every choice
  of preferences.
- `Session` holds `SessionState`, a class with the two session fields the
  buttons update in place: `ingredients` and `recipes`. Each button
  handler is a method. The service's answer is a parameter of type
  `Response`: either an exception or a returned text.

Four behaviours of the code are worth stating:

- "Add Ingredient" tests the raw input for emptiness and appends its
  stripped form. A whitespace-only input therefore appends an empty
  entry. The list is not guaranteed free of blank entries.
- The remove buttons take their index from enumerating the current list,
  so an index is always in range. `RemoveAt` requires that. No
  out-of-range no-op exists in the code.
- The generation call goes to a single model. There is no retry with a
  fallback model.
- The sidebar values reach the prompt exactly as the widgets return them.
  No label-normalisation step exists.

## Model

| member | source | states |
|---|---|---|
| Text.Strip | app.py:181 | `strip()` leaves no whitespace at either end; the result is empty exactly when the input is all whitespace; text already stripped is unchanged |
| Text.StripIsSlice | app.py:195 | the stripped text is a contiguous slice of the input, and everything before and after it is whitespace |
| Text.StripPadding | app.py:195 | stripping removes exactly the surrounding whitespace: `strip(pre + x + post) == x` for whitespace `pre` and `post` and stripped `x` |
| Text.StripAvoids | app.py:195 | stripping never introduces a character |
| Text.Split | app.py:195 | `split(d)` yields at least one piece, no piece contains `d`, and joining the pieces with `d` gives the input back |
| Text.SplitJoin | app.py:197 | splitting a `d`-joined list of `d`-free strings gives the list back |
| Text.SplitAtFirstSeparator | app.py:195 | splitting stops at the first separator: the first piece is the text before it |
| Text.SplitWithoutSeparator | app.py:195 | text without the separator splits into itself alone |
| Text.Join | app.py:227 | `sep.join(xs)`: empty for no elements, the element itself for one, otherwise the first element, `sep`, and the join of the rest; `Split`, `SplitJoin`, `ElementInJoin` and `JoinAvoids` state its properties |
| Text.ElementInJoin | app.py:254 | every element of a joined list occurs in the joined text |
| Text.JoinAvoids | app.py:227 | a character absent from the elements and the separator is absent from the joined text |
| Ingredients.CleanPieces | app.py:195 | the list comprehension yields at most one entry per piece, each non-empty and stripped |
| Ingredients.CleanPiecesFromPieces | app.py:195 | every entry is the stripped form of some piece |
| Ingredients.CleanPiecesKeeps | app.py:195 | every piece whose stripped form is non-empty contributes that stripped form |
| Ingredients.CleanPiecesOfClean | app.py:195 | a list of non-empty stripped pieces passes through unchanged |
| Ingredients.CleanPiecesAppend | app.py:195 | the comprehension works piece by piece, in order: cleaning `a + b` gives the cleaned `a` followed by the cleaned `b` |
| Ingredients.CleanPiecesAvoid | app.py:195 | a character no piece holds is held by no entry |
| Ingredients.ParseMany | app.py:194-197 | every added entry is non-empty and stripped; with a comma in the text no entry holds a comma; without one no entry holds a comma or a newline; empty text adds nothing |
| Ingredients.ParseCommaSeparated | app.py:194-195 | the parser splits on `,` whenever the text holds a comma: such text adds the stripped, non-empty comma-separated pieces in their original order |
| Ingredients.ParseNewlineSeparated | app.py:196-197 | the parser splits on `\n` whenever the text holds no comma: such text adds the stripped, non-empty lines in their original order |
| Ingredients.CommaSeparatedThree | app.py:194-195 | `a, b ,c` adds `[a, b, c]`: spaces around commas are stripped away |
| Ingredients.NewlineSeparatedThree | app.py:196-197 | `a`, `b` and `c` on three lines add `[a, b, c]` |
| Ingredients.ParseManyExample | app.py:194-197 | `"a, b ,c"` and `"a\nb\nc"` both add `["a", "b", "c"]` |
| Ingredients.ParseExportRoundTrip | app.py:227 | importing the exported text adds back exactly the list, when every entry is non-empty, stripped and free of commas and newlines |
| Ingredients.Export | app.py:227 | the export text is the entries joined by `\n`; its properties are `ExportLines` and `ParseExportRoundTrip` |
| Ingredients.ExportLines | app.py:227 | the export has one line per entry: splitting it at `\n` gives the list back when no entry holds a newline |
| Ingredients.ExportExample | app.py:227 | the instance `["Chicken", "Rice"]` exports as `"Chicken\nRice"` |
| Ingredients.SuggestionsAreClean | app.py:319-320 | every quick-add suggestion is non-empty and stripped |
| Prompt.CountText | app.py:254 | the recipe count is written as its single decimal digit |
| Prompt.DietaryText | app.py:249 | the tags joined by `, ` after `Dietary restrictions: `, or `No dietary restrictions` for no tag; see `NoDietaryLine` and `DietaryLine` |
| Prompt.CuisineText | app.py:250 | `Cuisine preference: ` and the cuisine, or empty for `Any`; see `CuisineLineUnlessAny` |
| Prompt.MealText | app.py:251 | `Meal type: ` and the meal type, or empty for `Any`; see `MealLineUnlessAny` |
| Prompt.RequirementLines | app.py:256-261 | the five lines of the requirements block in template order: time, difficulty, dietary, cuisine, meal type |
| Prompt.PromptLines | app.py:253-275 | the template's lines in order, blank first and last line included, with the count, the joined ingredients and the requirements filled in |
| Prompt.BuildPrompt | app.py:253-275 | the template lines joined by `\n`; the `Prompt` lemmas below state what it contains |
| Prompt.LineInPrompt | app.py:253-275 | every template line occurs in the prompt |
| Prompt.RequirementInPrompt | app.py:256-261 | every line of the requirements block occurs in the prompt |
| Prompt.PromptStatesCountAndIngredients | app.py:254 | the prompt asks for `exactly` the selected count and lists the ingredients joined by `, ` |
| Prompt.PromptStatesTimeAndDifficulty | app.py:257-258 | the cooking-time and difficulty lines are always present, `Any` included |
| Prompt.CuisineLineUnlessAny | app.py:250 | a `Cuisine preference: ` line is present if and only if the cuisine is not `Any`, and then it names the cuisine |
| Prompt.MealLineUnlessAny | app.py:251 | a `Meal type: ` line is present if and only if the meal type is not `Any`, and then it names the meal type |
| Prompt.NoDietaryLine | app.py:249 | the line `- No dietary restrictions` is present if and only if no dietary tag is selected, and then it occurs in the prompt |
| Prompt.DietaryLine | app.py:249 | a `- Dietary restrictions: ` line is present if and only if some tag is selected, and then the prompt states the tags joined by `, ` |
| Prompt.NoTagsNoRestrictions | app.py:249 | with no tag selected, no line starts `- Dietary restrictions: ` |
| Prompt.PromptScenario | app.py:253-258 | for Chicken, Rice and Garlic with three recipes, "30-45 min" and "Easy", the prompt holds `Chicken, Rice, Garlic`, `exactly 3`, `30-45 min` and `Easy` |
| Session.Replaces | app.py:288 | a response replaces the stored recipes only when the call returned and its text is non-empty |
| Session.SessionState.constructor | app.py:56-59 | a new session starts with no ingredients and no recipes |
| Session.SessionState.AddSingle | app.py:180-181 | empty input changes nothing; any other input appends its stripped form at the end; a clean list stays clean unless the input is all whitespace |
| Session.SessionState.AddSuggestion | app.py:314-326 | a suggestion button, shown only for an empty list, makes the list that one suggestion |
| Session.SessionState.AddMany | app.py:192-200 | the parsed entries are appended after the old ones, which stay an unchanged prefix; the reported count is the growth; empty input changes nothing; a clean list stays clean |
| Session.SessionState.RemoveAt | app.py:210-216 | removing entry `i` leaves the entries before and after it in order; the length drops by one; only that entry leaves the multiset |
| Session.SessionState.Clear | app.py:223 | the list becomes empty and the recipes are kept |
| Session.SessionState.GenerateRecipes | app.py:240-295 | the prompt is built from the current list and preferences; the recipes are replaced by the response text exactly when the call returned a non-empty text; on an exception or an empty text they are unchanged; the list is unchanged |
| Session.SessionState.GenerateNew | app.py:356 | the stored recipes become empty and the list is unchanged |

## Left out

- The Streamlit page is not modelled. That covers the page setup, CSS, columns, tabs, widgets, spinners, messages, `st.rerun` and the download buttons. It is rendering only.
- API-key handling (`st.secrets`, the password field, `genai.configure`) is not modelled. It is configuration input and output.
- The generation service (`GenerativeModel`, `generate_content`, `list_models`) is not modelled. It is a foreign network call; its answer enters `GenerateRecipes` as the `Response` parameter.
- `generation_config` and `safety_settings` are not modelled. They are floating-point and library settings passed through unread.
- The timestamped file name for saved recipes is not modelled. It depends on the wall clock.
- Prompt.BuildPrompt: the indentation the f-string adds inside every template line is not modelled. The prompt is the template's lines joined by newlines, and properties are stated about the lines and substrings it contains.
- Text.IsSpace: `str.strip()` follows Python's Unicode whitespace test. The model fixes the set of code points CPython classifies as whitespace.
- Session.SessionState: the recipes slot starts as and is reset to an empty Python list, and holds a string otherwise. Both empty forms are falsy, so the model uses the empty string for both.
- Prompt.Preferences: the fixed option lists of the sidebar widgets are not enforced. The prompt properties hold for any text. The recipe count keeps the slider's range of 1 to 5.
- Prompt.CuisineLineUnlessAny, Prompt.MealLineUnlessAny, Prompt.NoDietaryLine and Prompt.DietaryLine: the "if and only if" part is stated over the requirements block. The "if" part is also stated over the whole prompt text. Free-text ingredients could repeat any wording elsewhere in the prompt.
