# Recipe generator — a Dafny model

The recipe generator is a single-page Streamlit app. The user types the
ingredients they have, picks a dietary preference, a cuisine style and a
number of recipes, and presses "Generiere Rezepte". The app turns the text
into a list of ingredient tokens and builds two German instructions, a system
prompt and a user prompt. If an OpenAI key is configured, it sends them to the
chat model. Without a key, or when the call raises, a rule-based generator
fills up to three fixed recipe templates instead. One result text goes to both the
page and the download button.

This project models that pipeline in Dafny and proves what it promises:

- `strings.dfy` (module `Strings`): the Python string operations the app
  relies on (`replace`, `split`, `join`, `strip`, `lower`), with their
  characterising lemmas and the split/join round trips.
- `decimal.dfy` (module `Decimal`): `str()` of an integer, and reading the
  text back, so a number written into a prompt or a title can be recovered.
- `ingredients.dfy` (module `Ingredients`): `parse_ingredients`. Every
  token is non-empty, stripped, lower-cased and free of separators. Parsing
  is compositional, so order is kept and nothing is merged. Line breaks and
  commas are interchangeable. A token list written out with `", "` parses
  back to itself.
- `prompts.dfy` (modules `SystemText` and `Prompts`): `SystemText` holds the
  system template's text around its placeholder and shows it holds no brace.
  `build_system_prompt` is the template with `str(n)` at its one
  placeholder, and `n` can be read back out.
  `build_user_prompt` has three lines when no input holds a line break, as
  at the app's call site. The diet clause appears if and only if a diet other
  than "Keine" is chosen, and the cuisine clause if and only if a style is
  given. For a non-empty token list, the ingredient text after "Zutaten: "
  parses back to that list.
- `fallback.dfy` (module `Fallback`): `simple_rule_based` as a method with
  the source's loop, proved equal to a specification function. Lemmas give
  the block count (capped at three, empty for counts of zero or less), the
  template order, the defaults for an empty list, the choice of "main" and
  "others", and the ingredient list in every block.
- `app.dfy` (module `App`): the button handler. The key is a boolean, and the
  chat model is reached through a `ChatClient` object. Its `Complete` method
  records every request in a log and returns the model's answer, a reply or a
  raised error. The handler sends exactly one request, the two prompts, when
  there is a key and some ingredient, and none otherwise. The answer function
  may be applied only in that case, so a call anywhere else fails
  verification.

The app does not say what happens after a failed remote call beyond its code.
The model follows the code: the error message is shown and the rule-based
text is used. `lower()` is modelled for ASCII and Latin-1 upper-case letters
only. `strip()` uses Python's full set of white-space characters.

## Model

| member | source | states |
|---|---|---|
| `Strings.Lower` | streamlit_rezeptgenerator.py:33 | `lower()` maps every character by `LowerChar`, keeps the length and neither adds nor removes a `,` or a line break; `LowerSpec` and `LowerIdempotent` characterise it |
| `Strings.TrimStart` | streamlit_rezeptgenerator.py:33 | the left half of `strip()`; never longer than its input; `TrimStartSpec` characterises it |
| `Strings.TrimEnd` | streamlit_rezeptgenerator.py:33 | the right half of `strip()`; never longer than its input; `TrimEndSpec` characterises it |
| `Strings.Trim` | streamlit_rezeptgenerator.py:33 | `strip()`, both halves; `TrimSpec`, `TrimFixed`, `TrimBlank` and `TrimAfterBlank` characterise it |
| `Strings.LowerChar` | streamlit_rezeptgenerator.py:33 | `lower()` on a character changes only upper-case letters, leaves none, and keeps white space, `,` and line breaks as they are |
| `Strings.LowerSpec` | streamlit_rezeptgenerator.py:33 | `lower()` leaves no upper-case letter and changes no other character |
| `Strings.LowerIdempotent` | streamlit_rezeptgenerator.py:33 | lower-casing twice is lower-casing once |
| `Strings.TrimStartSpec` | streamlit_rezeptgenerator.py:33 | the left half of `strip()` drops exactly the leading white space: a suffix remains, everything dropped is white space, and what remains does not start with white space |
| `Strings.TrimEndSpec` | streamlit_rezeptgenerator.py:33 | the right half of `strip()` drops exactly the trailing white space |
| `Strings.TrimSpec` | streamlit_rezeptgenerator.py:33 | `strip()` yields a slice of its argument with no white space at either end |
| `Strings.TrimFixed` | streamlit_rezeptgenerator.py:33 | a string with no white space at its ends is its own `strip()` |
| `Strings.TrimBlank` | streamlit_rezeptgenerator.py:33-34 | an all-blank piece strips to the empty string, so it is dropped |
| `Strings.TrimAfterBlank` | streamlit_rezeptgenerator.py:33 | leading white space does not change `strip()` |
| `Strings.Replace` | streamlit_rezeptgenerator.py:33 | `replace('\n', ',')` keeps the length, turns every line break into a comma, leaves no line break and changes no other character |
| `Strings.Split` | streamlit_rezeptgenerator.py:33 | `split(',')` yields at least one piece, no piece contains the separator, and every character of a piece comes from the input |
| `Strings.SplitConcat` | streamlit_rezeptgenerator.py:33 | splitting at one separator splits both sides independently |
| `Strings.JoinSplit` | streamlit_rezeptgenerator.py:33 | joining the pieces of a split with the separator gives the input back |
| `Strings.SplitJoin` | streamlit_rezeptgenerator.py:86 | splitting a join on a separator that no part contains gives the parts back |
| `Strings.Join` | streamlit_rezeptgenerator.py:51 | `sep.join(parts)` is empty for no parts, the part itself for one, and otherwise as long as all parts together plus `len(parts) - 1` separators; `SplitJoin` and `JoinSplit` make it the inverse of `split` |
| `Strings.JoinSnoc` | streamlit_rezeptgenerator.py:89 | joining one more part appends the separator and that part |
| `Strings.JoinContains` | streamlit_rezeptgenerator.py:51 | every part occurs verbatim in the join |
| `Strings.JoinAvoids` | streamlit_rezeptgenerator.py:51 | a character in neither the parts nor the separator is not in the join |
| `Strings.JoinStartsWithFirst` | streamlit_rezeptgenerator.py:89 | a join starts with its first part |
| `Decimal.NatToString` | streamlit_rezeptgenerator.py:84 | the text of a natural number is a non-empty string of digits without a leading zero |
| `Decimal.IntToString` | streamlit_rezeptgenerator.py:55 | `str(n)` is non-empty, has no line break and starts with a digit exactly when n is not negative |
| `Decimal.IntRoundTrip` | streamlit_rezeptgenerator.py:55 | reading back `str(n)` gives n |
| `Decimal.IntToStringInjective` | streamlit_rezeptgenerator.py:55 | different numbers are written differently |
| `Ingredients.Pieces` | streamlit_rezeptgenerator.py:33 | after `replace('\n', ',').split(',')` no piece holds a `,` or a line break |
| `Ingredients.Normalize` | streamlit_rezeptgenerator.py:33 | `p.strip().lower()` for one piece; `NormalizeToken` and `TokenIsNormal` characterise it |
| `Ingredients.NormalizeAll` | streamlit_rezeptgenerator.py:33 | the list comprehension `[p.strip().lower() for p in ...]`; `NormalizeAllConcat` shows it distributes over `+`, the step `ParseConcat` rests on |
| `Ingredients.NormalizeToken` | streamlit_rezeptgenerator.py:33-34 | a separator-free piece that does not strip to empty becomes a token: stripped, lower-cased and free of separators |
| `Ingredients.DropEmpty` | streamlit_rezeptgenerator.py:34 | the filter keeps only non-empty elements of its input, and keeps a list without empty elements whole |
| `Ingredients.ParseIngredients` | streamlit_rezeptgenerator.py:32-34 | every element is non-empty, its own `strip()` and `lower()`, and holds no `,` or line break |
| `Ingredients.TokenIsNormal` | streamlit_rezeptgenerator.py:33 | normalizing a token again changes nothing |
| `Ingredients.ParseConcat` | streamlit_rezeptgenerator.py:33-34 | the text on either side of a comma or a line break is parsed independently and the results are concatenated: order kept, no deduplication |
| `Ingredients.ParseOnePiece` | streamlit_rezeptgenerator.py:33-34 | a separator-free text yields its stripped, lower-cased form, or nothing when that is empty |
| `Ingredients.ParseNewlinesAsCommas` | streamlit_rezeptgenerator.py:33 | replacing every line break by a comma does not change the result |
| `Ingredients.ParseJoin` | streamlit_rezeptgenerator.py:32-34 | a list of tokens joined with `", "` parses back to the same list |
| `Ingredients.ParseIdempotent` | streamlit_rezeptgenerator.py:32-34 | writing a parsed list out and parsing it again changes nothing |
| `Prompts.SystemPrompt` | streamlit_rezeptgenerator.py:37-47 | `build_system_prompt(n)`; `SystemPromptFillsPlaceholder`, `SystemPromptCountRoundTrip` and `SystemPromptInjective` characterise it |
| `SystemText.SystemTemplateOneField` | streamlit_rezeptgenerator.py:38-47 | no brace occurs in the template's text before or after `{n}`, so `{n}` is the template's only replacement field |
| `Prompts.SystemPromptFillsPlaceholder` | streamlit_rezeptgenerator.py:37-47 | the system prompt is the template with `{n}` replaced by `str(n)`; no brace occurs in the rest of the template, so `{n}` is its only field, and that rest is unchanged |
| `Prompts.SystemPromptCountRoundTrip` | streamlit_rezeptgenerator.py:37-47 | the count can be read back out of the system prompt |
| `Prompts.SystemPromptInjective` | streamlit_rezeptgenerator.py:47 | different counts give different system prompts |
| `Prompts.IngredientText` | streamlit_rezeptgenerator.py:51 | `ing_text`: the ingredients joined with `", "`, or "keine Zutaten angegeben" for none; `IngredientTextRoundTrip` characterises it |
| `Prompts.DietClause` | streamlit_rezeptgenerator.py:52 | `diet_text`; `PreferenceLineClauses` characterises it |
| `Prompts.CuisineClause` | streamlit_rezeptgenerator.py:53 | `cuisine_text`; `PreferenceLineClauses` characterises it |
| `Prompts.UserPrompt` | streamlit_rezeptgenerator.py:50-56 | `build_user_prompt`; `UserPromptLines`, `PreferenceLineClauses`, `UserPromptMentions` and `UserPromptCountInjective` characterise it |
| `Prompts.UserPromptLines` | streamlit_rezeptgenerator.py:50-56 | without line breaks in the inputs, the user prompt has exactly three lines: ingredients, preferences, request |
| `Prompts.PreferenceLineClauses` | streamlit_rezeptgenerator.py:52-54 | the preference line starts with the diet clause iff the diet is non-empty and not "Keine", ends with the cuisine clause iff a style is given, and is a single blank with neither |
| `Prompts.IngredientTextRoundTrip` | streamlit_rezeptgenerator.py:51 | the ingredient text of a non-empty token list parses back to that list |
| `Prompts.UserPromptMentions` | streamlit_rezeptgenerator.py:51-54 | every ingredient occurs verbatim in the user prompt |
| `Prompts.UserPromptCountInjective` | streamlit_rezeptgenerator.py:55 | different counts give different user prompts |
| `Fallback.Templates` | streamlit_rezeptgenerator.py:73-77 | the three templates, oven dish, pan dish and soup, in order, as literal text and `{main}`/`{others}` fields; `TemplatesUseBothFields` characterises them |
| `Fallback.RecipeCount` | streamlit_rezeptgenerator.py:83 | the number of loop rounds, `len(range(min(n, 3)))`: zero for counts of zero or less; `RuleBasedEmpty` and `RuleBasedCapped` characterise it |
| `Fallback.Bullets` | streamlit_rezeptgenerator.py:86 | one bullet per ingredient, in order, each `"- "` followed by that ingredient, and free of line breaks when the ingredients are; `BulletLines` shows the joined list splits back into these lines |
| `Fallback.Fill` | streamlit_rezeptgenerator.py:85 | `template.format(main=..., others=...)` on a template given as literal text and fields; `FillConcat` and `FillSegments` determine it, `FillContains` shows main and others appear verbatim |
| `Fallback.MainIngredient` | streamlit_rezeptgenerator.py:80 | `mains`: the first ingredient of the defaulted list; `MainIsFirst` and `EmptyListUsesDefaults` characterise it |
| `Fallback.OtherIngredients` | streamlit_rezeptgenerator.py:81 | `others`: the second to fourth ingredients joined with `", "`, or "Tomate"; `OthersAreNextThree` and `OthersNeverEmpty` characterise it |
| `Fallback.RecipeBlock` | streamlit_rezeptgenerator.py:84-87 | one `recipe` string: title, bullet list of the ingredients, filled template; `RecipeHeading`, `RecipeUsesMainAndOthers` and `RecipeListsAllIngredients` characterise it |
| `Fallback.Recipe` | streamlit_rezeptgenerator.py:78-87 | block i for the given ingredients, after the defaults and the choice of main and others |
| `Fallback.RuleBasedText` | streamlit_rezeptgenerator.py:72-89 | what `simple_rule_based` returns; `RuleBasedEmpty`, `RuleBasedOne`, `RuleBasedGrows` and `RuleBasedCapped` characterise it |
| `Fallback.SimpleRuleBased` | streamlit_rezeptgenerator.py:72-89 | the loop returns the blank-line join of the first `max(0, min(n, 3))` blocks; diet and cuisine play no part |
| `Fallback.Chosen` | streamlit_rezeptgenerator.py:78-79 | the list the generator works with is never empty |
| `Fallback.RuleBasedEmpty` | streamlit_rezeptgenerator.py:83-89 | the text is empty iff the count is zero or negative |
| `Fallback.RuleBasedOne` | streamlit_rezeptgenerator.py:83-89 | one recipe is the first template's block alone |
| `Fallback.RuleBasedGrows` | streamlit_rezeptgenerator.py:83-89 | raising the count by one, up to three, appends the next template's block after a blank line |
| `Fallback.RuleBasedCapped` | streamlit_rezeptgenerator.py:83 | any count of three or more gives the same three blocks |
| `Fallback.RecipeHeading` | streamlit_rezeptgenerator.py:84-87 | block i opens with the heading "### Rezept-Vorschlag i+1" and a blank line |
| `Fallback.EmptyListUsesDefaults` | streamlit_rezeptgenerator.py:78-81 | an empty list gives the text for ["Kartoffeln", "Zwiebel"]: main "Kartoffeln", others "Zwiebel" |
| `Fallback.SameChoiceSameText` | streamlit_rezeptgenerator.py:78-79 | the text depends on the ingredients only through the defaulted list |
| `Fallback.MainIsFirst` | streamlit_rezeptgenerator.py:80 | main is the first ingredient |
| `Fallback.OthersAreNextThree` | streamlit_rezeptgenerator.py:81 | with two or more tokens, others parses back to exactly the second to fourth of them |
| `Fallback.OthersNeverEmpty` | streamlit_rezeptgenerator.py:81 | others is never empty when no ingredient name is empty (a single ingredient gets the default "Tomate") |
| `Fallback.SelectionExamples` | streamlit_rezeptgenerator.py:78-81 | for the input placeholder's list kartoffeln, zwiebel, tomaten, feta the main is "kartoffeln" and others "zwiebel, tomaten, feta"; for zwiebel alone others is "Tomate" |
| `Fallback.FillConcat` | streamlit_rezeptgenerator.py:85 | filling works segment by segment: the fill of a concatenation is the concatenation of the fills, so order is kept |
| `Fallback.FillSegments` | streamlit_rezeptgenerator.py:85 | a literal segment is copied verbatim, `{main}` becomes main and `{others}` becomes others |
| `Fallback.FillContains` | streamlit_rezeptgenerator.py:85 | filling a template writes main and others verbatim wherever it has those fields |
| `Fallback.TemplatesUseBothFields` | streamlit_rezeptgenerator.py:73-77 | every template has both a `{main}` and an `{others}` field |
| `Fallback.RecipeUsesMainAndOthers` | streamlit_rezeptgenerator.py:85-87 | every block names main and others |
| `Fallback.BulletLines` | streamlit_rezeptgenerator.py:86 | the bullet list splits back into one "- x" line per ingredient |
| `Fallback.RecipeListsAllIngredients` | streamlit_rezeptgenerator.py:86-87 | every block contains the bullet list of the defaulted list, which splits back into one "- x" line per ingredient, in order |
| `App.RequestFor` | streamlit_rezeptgenerator.py:100-101 | the request built from `build_system_prompt` and `build_user_prompt` |
| `App.ChatClient.constructor` | streamlit_rezeptgenerator.py:59-67 | a connection that has sent nothing yet and answers by the given function |
| `App.ChatClient.Complete` | streamlit_rezeptgenerator.py:59-67 | `call_openai_chat(system, user)`: appends the request to the log and returns the model's answer to it |
| `App.OnGenerate` | streamlit_rezeptgenerator.py:94-112 | the warning is shown and nothing is sent iff no ingredient is parsed. Without a key, nothing is sent and the rule-based text is shown. With a key, the client's log grows by exactly one request, the two prompts. A reply is shown as it is; a raised error is shown with its message and the rule-based text is used. Page and download get the same text. The model's answer function may be applied only with a key and some ingredient |

## Left out

- App.OnGenerate: the log counts the requests sent through `ChatClient.Complete`. Applying the client's answer function directly, in the branch where a call is allowed, would not be logged. The handler does not do that.
- The Streamlit page itself (streamlit_rezeptgenerator.py:18-28, 97, 99, 108, 111-112, 115-116). Widgets, page setup, spinner and rendering are UI side effects. The model keeps the values that reach them, in `App.Screen`.
- Loading `.env` and `OPENAI_API_KEY` and setting `openai.api_key` (lines 12-16). This is environment I/O. Whether a key is present is the parameter `hasKey`.
- `call_openai_chat` (lines 59-67). It is a network call into the OpenAI library. `App.ChatClient.Complete` stands for it: the network is replaced by the client's answer function, which gives a reply text or the message of a raised exception. The model name, `temperature=0.8` and `max_tokens=800` are not modelled. Neither is its own check for a missing key, because the handler only calls it when a key is present.
- The `include_shopping` checkbox (line 28). It is read but never used.
- The slider's bounds of 1 to 5 recipes (line 27). The model takes any integer `n`, which covers those values.
- `Strings.Lower`: models `str.lower()` for ASCII and Latin-1 upper-case letters only. Other scripts, and Unicode mappings that change the length (such as U+0130), are not modelled, because the full Unicode case tables are out of reach here.
- `str.format` parsing the template text (lines 74-76, 85). The three templates are given already split into literal text and `{main}` / `{others}` fields (`Fallback.Segment`).
- An exception raised by `simple_rule_based` inside the `try` block (line 106). It cannot happen for a list of strings and an integer.
- A remote reply whose content is `None` (line 67). This is not modelled: the reply is always a string.
