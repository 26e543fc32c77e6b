/** parse_ingredients: free text with ingredients separated by commas or line
    breaks becomes the ordered list of trimmed, lower-cased, non-empty tokens. */
module Ingredients {
  import opened Strings

  /** What every element of a parsed ingredient list looks like. */
  predicate IsToken(x: string) {
    && x != ""
    && Trim(x) == x
    && Lower(x) == x
    && ',' !in x && '\n' !in x
  }

  /** text.replace('\n', ',').split(','): the raw pieces between separators. */
  function Pieces(text: string): (r: seq<string>)
    ensures |r| >= 1
    ensures forall i :: 0 <= i < |r| ==> ',' !in r[i] && '\n' !in r[i]
  {
    var t := Replace(text, '\n', ',');
    var r := Split(t, ',');
    r
  }

  /** p.strip().lower() for one piece. */
  function Normalize(p: string): string {
    Lower(Trim(p))
  }

  /** A piece without separators that does not normalize to the empty string
      normalizes to a token. */
  lemma NormalizeToken(p: string)
    requires ',' !in p && '\n' !in p && Normalize(p) != ""
    ensures IsToken(Normalize(p))
  {
    var t := Trim(p);
    var r := Lower(t);
    TrimSpec(p);
    LowerIdempotent(t);
    TrimFixed(r);
  }

  /** [p.strip().lower() for p in parts] */
  function NormalizeAll(parts: seq<string>): seq<string> {
    seq(|parts|, i requires 0 <= i < |parts| => Normalize(parts[i]))
  }

  /** [p for p in parts if p]: the non-empty parts, in their order. */
  function DropEmpty(parts: seq<string>): (r: seq<string>)
    ensures |r| <= |parts|
    ensures forall x :: x in r ==> x in parts && x != ""
    ensures (forall i :: 0 <= i < |parts| ==> parts[i] != "") ==> r == parts
  {
    if parts == [] then []
    else if parts[0] == "" then DropEmpty(parts[1..])
    else [parts[0]] + DropEmpty(parts[1..])
  }

  /** parse_ingredients(text). Every element is a token: non-empty, already
      stripped and lower-cased, and free of ',' and line breaks. */
  function ParseIngredients(text: string): (r: seq<string>)
    ensures forall i :: 0 <= i < |r| ==> IsToken(r[i])
  {
    var pieces := Pieces(text);
    var r := DropEmpty(NormalizeAll(pieces));
    assert forall x :: x in r ==> IsToken(x) by {
      forall x | x in r ensures IsToken(x) {
        var i :| 0 <= i < |pieces| && NormalizeAll(pieces)[i] == x;
        NormalizeToken(pieces[i]);
      }
    }
    r
  }

  /** A token is its own strip() and lower(), so normalizing it again is harmless. */
  lemma TokenIsNormal(x: string)
    requires IsToken(x)
    ensures Normalize(x) == x
  {
  }

  lemma {:induction false} DropEmptyConcat(a: seq<string>, b: seq<string>)
    ensures DropEmpty(a + b) == DropEmpty(a) + DropEmpty(b)
  {
    if a != [] {
      assert (a + b)[0] == a[0];
      assert (a + b)[1..] == a[1..] + b;
      DropEmptyConcat(a[1..], b);
    } else {
      assert a + b == b;
    }
  }

  /** Splitting the text at one comma or line break parses the two sides
      independently and concatenates the results: the order of the input is
      kept, and repeated ingredients are not merged. */
  lemma {:induction false} ParseConcat(a: string, b: string, sep: char)
    requires sep == ',' || sep == '\n'
    ensures ParseIngredients(a + [sep] + b) == ParseIngredients(a) + ParseIngredients(b)
  {
    PiecesConcat(a, b, sep);
    var pa, pb := Pieces(a), Pieces(b);
    NormalizeAllConcat(pa, pb);
    DropEmptyConcat(NormalizeAll(pa), NormalizeAll(pb));
  }

  lemma {:induction false} PiecesConcat(a: string, b: string, sep: char)
    requires sep == ',' || sep == '\n'
    ensures Pieces(a + [sep] + b) == Pieces(a) + Pieces(b)
  {
    var ra, rb := Replace(a, '\n', ','), Replace(b, '\n', ',');
    ReplaceConcat(a + [sep], b, '\n', ',');
    ReplaceConcat(a, [sep], '\n', ',');
    assert Replace(a + [sep] + b, '\n', ',') == ra + [','] + rb;
    SplitConcat(ra, rb, ',');
  }

  lemma {:induction false} NormalizeAllConcat(a: seq<string>, b: seq<string>)
    ensures NormalizeAll(a + b) == NormalizeAll(a) + NormalizeAll(b)
  {
    var l, r := NormalizeAll(a + b), NormalizeAll(a) + NormalizeAll(b);
    forall i | 0 <= i < |l| ensures l[i] == r[i] {
      if i < |a| {
        assert (a + b)[i] == a[i];
      } else {
        assert (a + b)[i] == b[i - |a|];
      }
    }
  }

  /** A text without separators is one piece: it yields its normalized form,
      or nothing if that is empty. */
  lemma ParseOnePiece(s: string)
    requires ',' !in s && '\n' !in s
    ensures ParseIngredients(s) == if Normalize(s) == "" then [] else [Normalize(s)]
  {
    assert Replace(s, '\n', ',') == s;
    SplitNoSeparator(s, ',');
    assert Pieces(s) == [s];
    assert NormalizeAll([s]) == [Normalize(s)];
    assert DropEmpty([Normalize(s)]) == if Normalize(s) == "" then [] else [Normalize(s)];
  }

  /** Line breaks and commas are interchangeable separators. */
  lemma ParseNewlinesAsCommas(s: string)
    ensures ParseIngredients(Replace(s, '\n', ',')) == ParseIngredients(s)
  {
    assert Replace(Replace(s, '\n', ','), '\n', ',') == Replace(s, '\n', ',');
  }

  /** Blanks in front of a token vanish when it is normalized. */
  lemma NormalizeAfterBlanks(w: string, x: string)
    requires forall i :: 0 <= i < |w| ==> w[i] == ' '
    requires IsToken(x)
    ensures Normalize(w + x) == x
  {
    TrimAfterBlank(w, x);
  }

  lemma JoinCommaSpace(xs: seq<string>)
    requires |xs| > 1
    ensures Join(xs, ", ") == xs[0] + [','] + (" " + Join(xs[1..], ", "))
  {
  }

  /** A single token after blanks parses to itself. */
  lemma ParseTokenAfterBlanks(w: string, x: string)
    requires forall i :: 0 <= i < |w| ==> w[i] == ' '
    requires IsToken(x)
    ensures ParseIngredients(w + x) == [x]
  {
    NormalizeAfterBlanks(w, x);
    assert ',' !in w + x && '\n' !in w + x;
    ParseOnePiece(w + x);
  }

  lemma {:induction false} ParseJoinedAfterBlanks(w: string, xs: seq<string>)
    requires forall i :: 0 <= i < |w| ==> w[i] == ' '
    requires forall i :: 0 <= i < |xs| ==> IsToken(xs[i])
    ensures ParseIngredients(w + Join(xs, ", ")) == xs
    decreases xs
  {
    if xs == [] {
      assert w + Join(xs, ", ") == w;
      ParseOnePiece(w);
      TrimBlank(w);
    } else if |xs| == 1 {
      ParseTokenAfterBlanks(w, xs[0]);
    } else {
      var x, rest := xs[0], Join(xs[1..], ", ");
      assert xs == [x] + xs[1..];
      JoinCommaSpace(xs);
      assert w + Join(xs, ", ") == (w + x) + [','] + (" " + rest);
      ParseConcat(w + x, " " + rest, ',');
      ParseTokenAfterBlanks(w, x);
      ParseJoinedAfterBlanks(" ", xs[1..]);
    }
  }

  /** Round trip: a list of tokens written out with ", " (as the prompt and
      the fallback text write it) parses back to the same list. */
  lemma ParseJoin(xs: seq<string>)
    requires forall i :: 0 <= i < |xs| ==> IsToken(xs[i])
    ensures ParseIngredients(Join(xs, ", ")) == xs
  {
    ParseJoinedAfterBlanks("", xs);
    assert "" + Join(xs, ", ") == Join(xs, ", ");
  }

  /** Parsing is a normal form: writing a parsed list out and parsing it
      again changes nothing. */
  lemma ParseIdempotent(text: string)
    ensures ParseIngredients(Join(ParseIngredients(text), ", ")) == ParseIngredients(text)
  {
    ParseJoin(ParseIngredients(text));
  }
}
