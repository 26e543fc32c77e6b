/** The text of build_system_prompt's template around its placeholder,
    kept apart from the prompt functions so that facts about the literal
    text are checked on their own. */
module SystemText {
  /** The system template up to its one placeholder {n}. */
  const SystemHead: string :=
    "Du bist ein hilfreicher Koch-Assistent. " + "Du bekommst eine Liste von Zutaten,\n"
    + "und sollst bis zu "

  /** The system template after its one placeholder {n}. */
  const SystemTail: string :=
    " kreative, praxistaugliche Rezepte " + "vorschlagen, die möglichst nur\n"
    + "die angegebenen Zutaten verwenden. " + "Du darfst bis zu 2 "
    + "übliche Vorratszutaten\n" + "(z. B. Salz, Pfeffer, Öl, Wasser) "
    + "hinzufügen. Für jedes Rezept liefere:\n" + "- Titel und kurze Beschreibung\n"
    + "- Zutatenliste " + "(mit Mengen, wenn möglich)\n"
    + "- Schritt-für-Schritt " + "Zubereitung (nummeriert)\n"
    + "- Geschätzte Zeit " + "(Vorbereitung + Garzeit)\n"
    + "- Wenn wichtige Zutaten fehlen, " + "eine kurze Einkaufsliste\n\n"
    + "Antworte auf Deutsch und verwende " + "ein klares, praktisches Format."

  /** No brace of str.format's field syntax, so no replacement field. */
  predicate NoBraces(s: string) {
    '{' !in s && '}' !in s
  }

  /** NoBraces stated character by character. The verifier checks a string
      literal far more cheaply in this form, so each literal piece is checked
      as Plain and then converted by PlainNoBraces. */
  predicate Plain(s: string) {
    forall i :: 0 <= i < |s| ==> s[i] != '{' && s[i] != '}'
  }

  lemma PlainNoBraces(s: string)
    requires Plain(s)
    ensures NoBraces(s)
  {
  }

  /** The template's text around {n} holds no brace, so {n} is its only
      replacement field and the text around it is kept as written. */
  lemma SystemTemplateOneField()
    ensures NoBraces(SystemHead) && NoBraces(SystemTail)
  {
    HeadNoBraces();
    TailNoBraces();
  }

  lemma HeadNoBraces()
    ensures NoBraces(SystemHead)
  {
    PieceNoBraces0();
    PieceNoBraces1();
    PieceNoBraces2();
  }

  lemma TailNoBraces()
    ensures NoBraces(SystemTail)
  {
    PieceNoBraces3();
    PieceNoBraces4();
    PieceNoBraces5();
    PieceNoBraces6();
    PieceNoBraces7();
    PieceNoBraces8();
    PieceNoBraces9();
    PieceNoBraces10();
    PieceNoBraces11();
    PieceNoBraces12();
    PieceNoBraces13();
    PieceNoBraces14();
    PieceNoBraces15();
    PieceNoBraces16();
    PieceNoBraces17();
    PieceNoBraces18();
    PieceNoBraces19();
    PieceNoBraces20();
  }

  // The pieces of the template text, one at a time.

  lemma PieceNoBraces0()
    ensures NoBraces("Du bist ein hilfreicher Koch-Assistent. ")
  {
    PlainNoBraces("Du bist ein hilfreicher Koch-Assistent. ");
  }

  lemma PieceNoBraces1()
    ensures NoBraces("Du bekommst eine Liste von Zutaten,\n")
  {
    PlainNoBraces("Du bekommst eine Liste von Zutaten,\n");
  }

  lemma PieceNoBraces2()
    ensures NoBraces("und sollst bis zu ")
  {
    PlainNoBraces("und sollst bis zu ");
  }

  lemma PieceNoBraces3()
    ensures NoBraces(" kreative, praxistaugliche Rezepte ")
  {
    PlainNoBraces(" kreative, praxistaugliche Rezepte ");
  }

  lemma PieceNoBraces4()
    ensures NoBraces("vorschlagen, die möglichst nur\n")
  {
    PlainNoBraces("vorschlagen, die möglichst nur\n");
  }

  lemma PieceNoBraces5()
    ensures NoBraces("die angegebenen Zutaten verwenden. ")
  {
    PlainNoBraces("die angegebenen Zutaten verwenden. ");
  }

  lemma PieceNoBraces6()
    ensures NoBraces("Du darfst bis zu 2 ")
  {
    PlainNoBraces("Du darfst bis zu 2 ");
  }

  lemma PieceNoBraces7()
    ensures NoBraces("übliche Vorratszutaten\n")
  {
    PlainNoBraces("übliche Vorratszutaten\n");
  }

  lemma PieceNoBraces8()
    ensures NoBraces("(z. B. Salz, Pfeffer, Öl, Wasser) ")
  {
    PlainNoBraces("(z. B. Salz, Pfeffer, Öl, Wasser) ");
  }

  lemma PieceNoBraces9()
    ensures NoBraces("hinzufügen. Für jedes Rezept liefere:\n")
  {
    PlainNoBraces("hinzufügen. Für jedes Rezept liefere:\n");
  }

  lemma PieceNoBraces10()
    ensures NoBraces("- Titel und kurze Beschreibung\n")
  {
    PlainNoBraces("- Titel und kurze Beschreibung\n");
  }

  lemma PieceNoBraces11()
    ensures NoBraces("- Zutatenliste ")
  {
    PlainNoBraces("- Zutatenliste ");
  }

  lemma PieceNoBraces12()
    ensures NoBraces("(mit Mengen, wenn möglich)\n")
  {
    PlainNoBraces("(mit Mengen, wenn möglich)\n");
  }

  lemma PieceNoBraces13()
    ensures NoBraces("- Schritt-für-Schritt ")
  {
    PlainNoBraces("- Schritt-für-Schritt ");
  }

  lemma PieceNoBraces14()
    ensures NoBraces("Zubereitung (nummeriert)\n")
  {
    PlainNoBraces("Zubereitung (nummeriert)\n");
  }

  lemma PieceNoBraces15()
    ensures NoBraces("- Geschätzte Zeit ")
  {
    PlainNoBraces("- Geschätzte Zeit ");
  }

  lemma PieceNoBraces16()
    ensures NoBraces("(Vorbereitung + Garzeit)\n")
  {
    PlainNoBraces("(Vorbereitung + Garzeit)\n");
  }

  lemma PieceNoBraces17()
    ensures NoBraces("- Wenn wichtige Zutaten fehlen, ")
  {
    PlainNoBraces("- Wenn wichtige Zutaten fehlen, ");
  }

  lemma PieceNoBraces18()
    ensures NoBraces("eine kurze Einkaufsliste\n\n")
  {
    PlainNoBraces("eine kurze Einkaufsliste\n\n");
  }

  lemma PieceNoBraces19()
    ensures NoBraces("Antworte auf Deutsch und verwende ")
  {
    PlainNoBraces("Antworte auf Deutsch und verwende ");
  }

  lemma PieceNoBraces20()
    ensures NoBraces("ein klares, praktisches Format.")
  {
    PlainNoBraces("ein klares, praktisches Format.");
  }
}

/** build_system_prompt and build_user_prompt: the two instructions sent to
    the language model, rendered from fixed German templates. */
module Prompts {
  import opened Strings
  import opened Decimal
  import opened SystemText
  import Ingredients

  /** The system template as written, with its placeholder. */
  const SystemTemplate: string := SystemHead + "{n}" + SystemTail

  /** build_system_prompt(n): the template with str(n) at the placeholder. */
  function SystemPrompt(n: int): string {
    SystemHead + IntToString(n) + SystemTail
  }

  /** Reads the recipe count back out of a system prompt; None when the text
      is not the system template with a number at the placeholder. */
  function SystemPromptCount(s: string): Option<int> {
    if |s| >= |SystemHead| + |SystemTail| && HasPrefix(s, SystemHead) && HasSuffix(s, SystemTail)
    then ParseInt(s[|SystemHead|..|s| - |SystemTail|])
    else None
  }

  /** The system prompt is the template with {n} replaced by the decimal text
      of n, and nothing else of the template changes. */
  lemma SystemPromptFillsPlaceholder(n: int)
    ensures SystemTemplate[|SystemHead|..|SystemHead| + 3] == "{n}"
    ensures NoBraces(SystemTemplate[..|SystemHead|]) && NoBraces(SystemTemplate[|SystemHead| + 3..])
    ensures SystemPrompt(n)
         == SystemTemplate[..|SystemHead|] + IntToString(n) + SystemTemplate[|SystemHead| + 3..]
  {
    assert SystemTemplate[..|SystemHead|] == SystemHead;
    assert SystemTemplate[|SystemHead| + 3..] == SystemTail;
    SystemTemplateOneField();
  }

  /** Round trip: the count can be read back from the system prompt, so the
      prompt states exactly the requested number. */
  lemma SystemPromptCountRoundTrip(n: int)
    ensures SystemPromptCount(SystemPrompt(n)) == Some(n)
  {
    CutEnds(SystemHead, IntToString(n), SystemTail);
    IntRoundTrip(n);
  }

  /** Different counts give different system prompts. */
  lemma SystemPromptInjective(n: int, m: int)
    requires SystemPrompt(n) == SystemPrompt(m)
    ensures n == m
  {
    SystemPromptCountRoundTrip(n);
    SystemPromptCountRoundTrip(m);
  }

  const NoIngredients: string := "keine Zutaten angegeben"

  /** ing_text: the ingredients joined with ", ", or a fixed phrase for none. */
  function IngredientText(ingredients: seq<string>): string {
    if ingredients == [] then NoIngredients else Join(ingredients, ", ")
  }

  /** The selection "Keine" (none) and an empty value both mean no preference. */
  predicate DietGiven(diet: string) {
    diet != "" && diet != "Keine"
  }

  const DietLead: string := "Ernährungspräferenz: "
  const CuisineLead: string := "Küchenrichtung: "

  /** diet_text */
  function DietClause(diet: string): string {
    if DietGiven(diet) then DietLead + diet + "." else ""
  }

  /** cuisine_text */
  function CuisineClause(cuisine: string): string {
    if cuisine != "" then CuisineLead + cuisine + "." else ""
  }

  const CountLead: string := "Erstelle "
  const CountRest: string :=
    " Rezepte in Deutsch." + " Verwende möglichst nur die Zutaten. "
    + "Wenn Mengen nicht angegeben sind, " + "nenne sinnvolle Schätzmengen." + " Sei praktisch und kreativ."

  /** The closing line, with the requested count. */
  function CountLine(n: int): string {
    CountLead + IntToString(n) + CountRest
  }

  /** The first line: the ingredients. */
  function IngredientLine(ingredients: seq<string>): string {
    "Zutaten: " + IngredientText(ingredients)
  }

  /** The second line: the two optional clauses around one blank. */
  function PreferenceLine(diet: string, cuisine: string): string {
    DietClause(diet) + " " + CuisineClause(cuisine)
  }

  /** build_user_prompt(ingredients, diet, cuisine, n): three lines, the
      ingredients, the optional preferences, the request. */
  function UserPrompt(ingredients: seq<string>, diet: string, cuisine: string, n: int): string {
    IngredientLine(ingredients) + "\n" + PreferenceLine(diet, cuisine) + "\n" + CountLine(n)
  }

  lemma IngredientLineSingle(ingredients: seq<string>)
    requires forall i :: 0 <= i < |ingredients| ==> '\n' !in ingredients[i]
    ensures '\n' !in IngredientLine(ingredients)
  {
    JoinAvoids(ingredients, ", ", '\n');
    assert '\n' !in NoIngredients;
  }

  lemma PreferenceLineSingle(diet: string, cuisine: string)
    requires '\n' !in diet && '\n' !in cuisine
    ensures '\n' !in PreferenceLine(diet, cuisine)
  {
    assert '\n' !in DietLead && '\n' !in CuisineLead;
  }

  lemma CountLineSingle(n: int)
    ensures '\n' !in CountLine(n)
  {
    CountRestSingle();
    assert '\n' !in CountLead;
  }

  lemma CountRestSingle()
    ensures '\n' !in CountRest
  {
    RestPieceSingle0();
    RestPieceSingle1();
    RestPieceSingle2();
    RestPieceSingle3();
    RestPieceSingle4();
  }

  // The pieces of the closing line's text, one at a time.

  lemma RestPieceSingle0()
    ensures '\n' !in " Rezepte in Deutsch."
  {
  }

  lemma RestPieceSingle1()
    ensures '\n' !in " Verwende möglichst nur die Zutaten. "
  {
  }

  lemma RestPieceSingle2()
    ensures '\n' !in "Wenn Mengen nicht angegeben sind, "
  {
  }

  lemma RestPieceSingle3()
    ensures '\n' !in "nenne sinnvolle Schätzmengen."
  {
  }

  lemma RestPieceSingle4()
    ensures '\n' !in " Sei praktisch und kreativ."
  {
  }

  lemma {:induction false} SplitThreeLines(l1: string, l2: string, l3: string)
    requires '\n' !in l1 && '\n' !in l2 && '\n' !in l3
    ensures Split(l1 + "\n" + l2 + "\n" + l3, '\n') == [l1, l2, l3]
  {
    SplitNoSeparator(l1, '\n');
    SplitNoSeparator(l2, '\n');
    SplitNoSeparator(l3, '\n');
    SplitConcat(l2, l3, '\n');
    assert l1 + "\n" + l2 + "\n" + l3 == l1 + ['\n'] + (l2 + ['\n'] + l3);
    SplitConcat(l1, l2 + ['\n'] + l3, '\n');
  }

  /** Whenever no ingredient, preference or style holds a line break, the
      user prompt has exactly three lines: ingredients, preferences, request. */
  lemma UserPromptLines(ingredients: seq<string>, diet: string, cuisine: string, n: int)
    requires forall i :: 0 <= i < |ingredients| ==> '\n' !in ingredients[i]
    requires '\n' !in diet && '\n' !in cuisine
    ensures Split(UserPrompt(ingredients, diet, cuisine, n), '\n')
         == [IngredientLine(ingredients), PreferenceLine(diet, cuisine), CountLine(n)]
  {
    IngredientLineSingle(ingredients);
    PreferenceLineSingle(diet, cuisine);
    CountLineSingle(n);
    SplitThreeLines(IngredientLine(ingredients), PreferenceLine(diet, cuisine), CountLine(n));
  }

  /** The preference line opens with the diet clause if and only if a diet
      other than "Keine" is chosen, and ends with the cuisine clause if and
      only if a style is given; with neither it is a single blank. */
  lemma PreferenceLineClauses(diet: string, cuisine: string)
    ensures HasPrefix(PreferenceLine(diet, cuisine), DietLead) <==> DietGiven(diet)
    ensures DietGiven(diet) ==> HasPrefix(PreferenceLine(diet, cuisine), DietLead + diet + ".")
    ensures var line := PreferenceLine(diet, cuisine);
      (line[|line| - 1] == '.') <==> cuisine != ""
    ensures cuisine != "" ==> HasSuffix(PreferenceLine(diet, cuisine), CuisineLead + cuisine + ".")
    ensures !DietGiven(diet) && cuisine == "" ==> PreferenceLine(diet, cuisine) == " "
  {
    var line := PreferenceLine(diet, cuisine);
    if !DietGiven(diet) {
      assert line[0] == ' ' != DietLead[0];
    } else {
      assert line[..|DietLead + diet + "."|] == DietLead + diet + ".";
    }
    if cuisine != "" {
      assert line[|line| - |CuisineLead + cuisine + "."|..] == CuisineLead + cuisine + ".";
    }
  }

  /** Round trip: the ingredient part of the prompt parses back to the very
      list of ingredients it was built from. */
  lemma IngredientTextRoundTrip(ingredients: seq<string>)
    requires ingredients != []
    requires forall i :: 0 <= i < |ingredients| ==> Ingredients.IsToken(ingredients[i])
    ensures Ingredients.ParseIngredients(IngredientText(ingredients)) == ingredients
  {
    Ingredients.ParseJoin(ingredients);
  }

  /** Every ingredient occurs verbatim in the user prompt. */
  lemma UserPromptMentions(ingredients: seq<string>, diet: string, cuisine: string, n: int, i: nat)
    requires i < |ingredients|
    ensures IsInfix(ingredients[i], UserPrompt(ingredients, diet, cuisine, n))
  {
    var x, l1 := ingredients[i], IngredientLine(ingredients);
    JoinContains(ingredients, ", ", i);
    InfixOfConcat(x, "Zutaten: ", IngredientText(ingredients));
    InfixOfConcat(x, "\n", l1);
    InfixOfConcat(x, PreferenceLine(diet, cuisine), l1 + "\n");
    InfixOfConcat(x, "\n", l1 + "\n" + PreferenceLine(diet, cuisine));
    InfixOfConcat(x, CountLine(n), l1 + "\n" + PreferenceLine(diet, cuisine) + "\n");
  }

  /** Different counts give different user prompts. */
  lemma UserPromptCountInjective(ingredients: seq<string>, diet: string, cuisine: string, n: int, m: int)
    requires UserPrompt(ingredients, diet, cuisine, n) == UserPrompt(ingredients, diet, cuisine, m)
    ensures n == m
  {
    var p := IngredientLine(ingredients) + "\n" + PreferenceLine(diet, cuisine) + "\n";
    var a, b := UserPrompt(ingredients, diet, cuisine, n), UserPrompt(ingredients, diet, cuisine, m);
    assert a == p + CountLine(n) && b == p + CountLine(m);
    assert CountLine(n) == a[|p|..] == b[|p|..] == CountLine(m);
    var sn, sm := IntToString(n), IntToString(m);
    assert |sn| == |sm|;
    assert sn == CountLine(n)[|CountLead|..|CountLead| + |sn|];
    assert sm == CountLine(m)[|CountLead|..|CountLead| + |sm|];
    IntToStringInjective(n, m);
  }
}
