/** simple_rule_based: the offline generator that fills fixed recipe
    templates with the first ingredient ("main") and up to three more
    ("others"). */
module Fallback {
  import opened Strings
  import opened Decimal
  import Ingredients

  /** One piece of a recipe template as str.format sees it: literal text,
      or the field {main} or {others}. */
  datatype Segment = Literal(text: string) | MainField | OthersField

  /** template.format(main=main, others=others): the fields are replaced by
      the values, verbatim. */
  function Fill(template: seq<Segment>, main: string, others: string): string {
    if template == [] then ""
    else
      var head := match template[0]
        case Literal(t) => t
        case MainField => main
        case OthersField => others;
      head + Fill(template[1..], main, others)
  }

  /** The three templates, in order: oven dish, pan dish, soup. */
  const Templates: seq<seq<Segment>> := [
    [Literal("Ofengericht mit "), MainField, Literal(": Schneide "), MainField,
     Literal(" und kombiniere mit "), OthersField,
     Literal(". Würze mit Salz und Pfeffer, backe bei 200°C für 25-35 Minuten.")],
    [Literal("Pfannengericht: Brate "), MainField, Literal(" mit "), OthersField,
     Literal(" in etwas Öl. Füge Kräuter hinzu und serviere mit Brot oder Reis.")],
    [Literal("Schnelle Suppe: Koche "), MainField, Literal(" und "), OthersField,
     Literal(" in Wasser oder Brühe, püriere optional und schmecke ab.")]
  ]

  const DefaultIngredients: seq<string> := ["Kartoffeln", "Zwiebel"]
  const DefaultOthers: string := "Tomate"

  function Min(a: int, b: int): int {
    if a < b then a else b
  }

  /** The list the generator works with: an empty list is replaced by the defaults. */
  function Chosen(ingredients: seq<string>): (r: seq<string>)
    ensures r != []
  {
    if ingredients == [] then DefaultIngredients else ingredients
  }

  /** mains: the first ingredient. */
  function MainIngredient(ingredients: seq<string>): string {
    Chosen(ingredients)[0]
  }

  /** others: the second to fourth ingredients joined with ", ", or the
      default when there is only one. */
  function OtherIngredients(ingredients: seq<string>): string {
    var c := Chosen(ingredients);
    if |c| > 1 then Join(c[1..Min(4, |c|)], ", ") else DefaultOthers
  }

  /** The number of recipes produced: len(range(min(n, len(templates)))). */
  function RecipeCount(n: int): nat {
    if n <= 0 then 0 else Min(n, |Templates|)
  }

  /** "- x" for every ingredient: one bullet per ingredient, in order, and a
      bullet holds a line break only when its ingredient does. */
  function Bullets(ingredients: seq<string>): (r: seq<string>)
    ensures |r| == |ingredients|
    ensures forall j :: 0 <= j < |r| ==> HasPrefix(r[j], "- ") && r[j][2..] == ingredients[j]
    ensures (forall j :: 0 <= j < |ingredients| ==> '\n' !in ingredients[j])
              ==> forall j :: 0 <= j < |r| ==> '\n' !in r[j]
  {
    seq(|ingredients|, j requires 0 <= j < |ingredients| => "- " + ingredients[j])
  }

  /** The title of recipe block i. */
  function Title(i: nat): string {
    "Rezept-Vorschlag " + IntToString(i + 1)
  }

  /** The part of block i before the ingredient list: its title and the
      ingredient section's heading. */
  function Heading(i: nat): string {
    "### " + Title(i) + "\n\n" + "**Zutaten:**\n"
  }

  /** The part of block i after the ingredient list: the preparation text,
      template i filled with main and others. */
  function Preparation(i: nat, main: string, others: string): string
    requires i < |Templates|
  {
    "\n\n" + "**Zubereitung:**\n" + Fill(Templates[i], main, others) + "\n"
  }

  /** Recipe block i for a (non-empty) list, its main and its others. */
  function RecipeBlock(i: nat, ingredients: seq<string>, main: string, others: string): string
    requires i < |Templates|
  {
    Heading(i) + Join(Bullets(ingredients), "\n") + Preparation(i, main, others)
  }

  /** Recipe block i as the generator writes it for these ingredients. */
  function Recipe(i: nat, ingredients: seq<string>): string
    requires i < |Templates|
  {
    RecipeBlock(i, Chosen(ingredients), MainIngredient(ingredients), OtherIngredients(ingredients))
  }

  /** The first k recipe blocks, in template order. */
  function Recipes(ingredients: seq<string>, k: nat): (r: seq<string>)
    requires k <= |Templates|
    ensures |r| == k
  {
    seq(k, i requires 0 <= i < k => Recipe(i, ingredients))
  }

  /** What simple_rule_based returns: the blocks joined by blank lines. */
  function RuleBasedText(ingredients: seq<string>, n: int): string {
    Join(Recipes(ingredients, RecipeCount(n)), "\n\n")
  }

  /** simple_rule_based(ingredients, diet, cuisine, n). The text depends on
      neither diet nor cuisine. */
  method SimpleRuleBased(ingredients: seq<string>, diet: string, cuisine: string, n: int)
    returns (text: string)
    ensures text == RuleBasedText(ingredients, n)
  {
    var ings := ingredients;
    if ings == [] {
      ings := DefaultIngredients;
    }
    var main := ings[0];
    var others := if |ings| > 1 then Join(ings[1..Min(4, |ings|)], ", ") else DefaultOthers;
    assert ings == Chosen(ingredients);
    assert main == MainIngredient(ingredients) && others == OtherIngredients(ingredients);
    var out: seq<string> := [];
    var count := Min(n, |Templates|);
    var i := 0;
    while i < count
      invariant 0 <= i <= RecipeCount(n)
      invariant out == Recipes(ingredients, i)
    {
      var recipe := RecipeBlock(i, ings, main, others);
      assert recipe == Recipe(i, ingredients);
      RecipesSnoc(ingredients, i);
      out := out + [recipe];
      i := i + 1;
    }
    assert i == RecipeCount(n);
    text := Join(out, "\n\n");
  }

  /** One more block is the next template's block appended to the list. */
  lemma RecipesSnoc(ingredients: seq<string>, k: nat)
    requires k < |Templates|
    ensures Recipes(ingredients, k + 1) == Recipes(ingredients, k) + [Recipe(k, ingredients)]
  {
  }

  /** No recipes are asked for exactly when the count is zero or negative,
      and then the text is empty. */
  lemma RuleBasedEmpty(ingredients: seq<string>, n: int)
    ensures RuleBasedText(ingredients, n) == "" <==> n <= 0
  {
    if n > 0 {
      var blocks := Recipes(ingredients, RecipeCount(n));
      JoinStartsWithFirst(blocks, "\n\n");
      assert blocks[0][0] == '#';
    }
  }

  /** Asking for one more recipe, up to the number of templates, appends the
      next template's block after a blank line: blocks come in template
      order, titled 1, 2, 3. */
  lemma RuleBasedGrows(ingredients: seq<string>, k: nat)
    requires 1 <= k < |Templates|
    ensures RuleBasedText(ingredients, k + 1) == RuleBasedText(ingredients, k) + "\n\n" + Recipe(k, ingredients)
  {
    RecipesSnoc(ingredients, k);
    JoinSnoc(Recipes(ingredients, k), Recipe(k, ingredients), "\n\n");
  }

  /** One recipe is the first template's block alone. */
  lemma RuleBasedOne(ingredients: seq<string>)
    ensures RuleBasedText(ingredients, 1) == Recipe(0, ingredients)
  {
  }

  /** The count is capped at the number of templates: asking for more than
      three recipes gives the same three. */
  lemma RuleBasedCapped(ingredients: seq<string>, n: int)
    requires n >= |Templates|
    ensures RuleBasedText(ingredients, n) == RuleBasedText(ingredients, |Templates|)
  {
  }

  /** The heading of block i names recipe i + 1. */
  lemma RecipeHeading(i: nat, ingredients: seq<string>)
    requires i < |Templates|
    ensures HasPrefix(Recipe(i, ingredients), "### " + Title(i) + "\n\n")
  {
    var h := "### " + Title(i) + "\n\n";
    var head := Heading(i);
    var r := Recipe(i, ingredients);
    assert head == h + "**Zutaten:**\n";
    assert r == head + Join(Bullets(Chosen(ingredients)), "\n")
      + Preparation(i, MainIngredient(ingredients), OtherIngredients(ingredients));
    assert r[..|head|] == head;
    assert r[..|h|] == r[..|head|][..|h|];
  }

  /** An empty list is treated as the defaults "Kartoffeln", "Zwiebel". */
  lemma EmptyListUsesDefaults(n: int)
    ensures RuleBasedText([], n) == RuleBasedText(DefaultIngredients, n)
    ensures MainIngredient([]) == "Kartoffeln" && OtherIngredients([]) == "Zwiebel"
  {
    SameChoiceSameText([], DefaultIngredients, n);
    DefaultChoice();
  }

  lemma DefaultChoice()
    ensures MainIngredient([]) == "Kartoffeln" && OtherIngredients([]) == "Zwiebel"
  {
    assert DefaultIngredients[1..Min(4, 2)] == ["Zwiebel"];
  }

  /** The text depends on the ingredients only through the defaulted list. */
  lemma SameChoiceSameText(a: seq<string>, b: seq<string>, n: int)
    requires Chosen(a) == Chosen(b)
    ensures RuleBasedText(a, n) == RuleBasedText(b, n)
  {
    assert Recipes(a, RecipeCount(n)) == Recipes(b, RecipeCount(n));
  }

  /** Round trip on the choice of "others": for two or more ingredients it
      names exactly the second to fourth of them, in order. */
  lemma OthersAreNextThree(ingredients: seq<string>)
    requires |ingredients| >= 2
    requires forall i :: 0 <= i < |ingredients| ==> Ingredients.IsToken(ingredients[i])
    ensures Ingredients.ParseIngredients(OtherIngredients(ingredients)) == ingredients[1..Min(4, |ingredients|)]
  {
    Ingredients.ParseJoin(ingredients[1..Min(4, |ingredients|)]);
  }

  /** "others" is never empty for a list without empty names: one ingredient
      gets the default "Tomate". */
  lemma OthersNeverEmpty(ingredients: seq<string>)
    requires forall i :: 0 <= i < |ingredients| ==> ingredients[i] != ""
    ensures OtherIngredients(ingredients) != ""
  {
    var c := Chosen(ingredients);
    if |c| > 1 {
      JoinStartsWithFirst(c[1..Min(4, |c|)], ", ");
    }
  }

  /** The main ingredient is the first one given. */
  lemma MainIsFirst(ingredients: seq<string>)
    requires ingredients != []
    ensures MainIngredient(ingredients) == ingredients[0]
  {
  }

  /** Filling a template writes {main} and {others} into the text verbatim. */
  lemma {:induction false} FillContains(template: seq<Segment>, main: string, others: string)
    ensures MainField in template ==> IsInfix(main, Fill(template, main, others))
    ensures OthersField in template ==> IsInfix(others, Fill(template, main, others))
  {
    if template != [] {
      var rest := Fill(template[1..], main, others);
      FillContains(template[1..], main, others);
      var head := Fill([template[0]], main, others);
      assert Fill([template[0]], main, others) == head + Fill([], main, others);
      assert Fill(template, main, others) == head + rest;
      if template[0] == MainField {
        assert InfixAt(main, head + rest, 0);
      } else if MainField in template {
        assert MainField in template[1..];
        InfixOfConcat(main, head, rest);
      }
      if template[0] == OthersField {
        assert InfixAt(others, head + rest, 0);
      } else if OthersField in template {
        assert OthersField in template[1..];
        InfixOfConcat(others, head, rest);
      }
    }
  }

  /** Filling works segment by segment and keeps their order: a literal is
      copied as it is, a field becomes its value. With FillSegments these
      determine Fill on every template. */
  lemma {:induction false} FillConcat(t: seq<Segment>, u: seq<Segment>, main: string, others: string)
    ensures Fill(t + u, main, others) == Fill(t, main, others) + Fill(u, main, others)
  {
    if t == [] {
      assert t + u == u;
    } else {
      assert (t + u)[0] == t[0];
      assert (t + u)[1..] == t[1..] + u;
      FillConcat(t[1..], u, main, others);
    }
  }

  /** One segment: a literal is kept verbatim, a field becomes its value. */
  lemma FillSegments(text: string, main: string, others: string)
    ensures Fill([Literal(text)], main, others) == text
    ensures Fill([MainField], main, others) == main
    ensures Fill([OthersField], main, others) == others
  {
    assert Fill([Literal(text)], main, others) == text + Fill([], main, others);
    assert Fill([MainField], main, others) == main + Fill([], main, others);
    assert Fill([OthersField], main, others) == others + Fill([], main, others);
  }

  /** Every template has both fields. */
  lemma TemplatesUseBothFields(i: nat)
    requires i < |Templates|
    ensures MainField in Templates[i] && OthersField in Templates[i]
  {
    assert Templates[i][1] == MainField;
    if i == 0 {
      assert Templates[i][5] == OthersField;
    } else {
      assert Templates[i][3] == OthersField;
    }
  }

  /** Every recipe block names the main ingredient and the others in its
      preparation text. */
  lemma RecipeUsesMainAndOthers(i: nat, ingredients: seq<string>)
    requires i < |Templates|
    ensures IsInfix(MainIngredient(ingredients), Recipe(i, ingredients))
    ensures IsInfix(OtherIngredients(ingredients), Recipe(i, ingredients))
  {
    var main, others := MainIngredient(ingredients), OtherIngredients(ingredients);
    var body := Fill(Templates[i], main, others);
    TemplatesUseBothFields(i);
    FillContains(Templates[i], main, others);
    var lead := "\n\n" + "**Zubereitung:**\n";
    var front := Heading(i) + Join(Bullets(Chosen(ingredients)), "\n");
    assert Preparation(i, main, others) == (lead + body) + "\n";
    assert Recipe(i, ingredients) == front + Preparation(i, main, others);
    InfixOfConcat(main, lead, body);
    InfixOfConcat(main, "\n", lead + body);
    InfixOfConcat(main, front, Preparation(i, main, others));
    InfixOfConcat(others, lead, body);
    InfixOfConcat(others, "\n", lead + body);
    InfixOfConcat(others, front, Preparation(i, main, others));
  }

  /** The ingredient section of every block lists every ingredient of the
      (defaulted) list, one "- x" line each, in order. */
  lemma RecipeListsAllIngredients(i: nat, ingredients: seq<string>)
    requires i < |Templates|
    requires forall j :: 0 <= j < |ingredients| ==> '\n' !in ingredients[j]
    ensures var c := Chosen(ingredients);
      Split(Join(Bullets(c), "\n"), '\n') == Bullets(c)
      && IsInfix(Join(Bullets(c), "\n"), Recipe(i, ingredients))
  {
    var c := Chosen(ingredients);
    BulletLines(c);
    var lines := Join(Bullets(c), "\n");
    var front := Heading(i);
    var back := Preparation(i, MainIngredient(ingredients), OtherIngredients(ingredients));
    assert Recipe(i, ingredients) == front + lines + back;
    assert InfixAt(lines, front + lines + back, |front|) by {
      assert (front + lines + back)[|front|..|front| + |lines|] == lines;
    }
  }

  /** The bullet list splits back into one "- x" line per ingredient. */
  lemma BulletLines(c: seq<string>)
    requires c != []
    requires forall j :: 0 <= j < |c| ==> '\n' !in c[j]
    ensures Split(Join(Bullets(c), "\n"), '\n') == Bullets(c)
  {
    SplitJoin(Bullets(c), '\n');
  }

  /** The fallback's choices on the input placeholder's list and on a
      single ingredient. */
  lemma SelectionExamples()
    ensures MainIngredient(["kartoffeln", "zwiebel", "tomaten", "feta"]) == "kartoffeln"
    ensures OtherIngredients(["kartoffeln", "zwiebel", "tomaten", "feta"]) == "zwiebel, tomaten, feta"
    ensures OtherIngredients(["zwiebel"]) == "Tomate"
  {
    var xs := ["kartoffeln", "zwiebel", "tomaten", "feta"];
    assert xs[1..4] == ["zwiebel", "tomaten", "feta"];
    assert Join(["feta"], ", ") == "feta";
    assert Join(["tomaten", "feta"], ", ") == "tomaten, feta";
  }
}
