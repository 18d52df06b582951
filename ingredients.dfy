/**
 * The ingredient parser of the recipe form (src/App.tsx, lines 22-25):
 * `input.split(",").map((s) => s.trim()).filter(Boolean)`.
 */
module Ingredients {
  import opened JsString

  /** `.map((s) => s.trim())` */
  function TrimAll(xs: seq<string>): seq<string> {
    if xs == [] then [] else [Trim(xs[0])] + TrimAll(xs[1..])
  }

  /** `.filter(Boolean)` on strings: keeps exactly the non-empty ones, in order. */
  function NonEmpty(xs: seq<string>): (ys: seq<string>)
    ensures |ys| <= |xs|
  {
    if xs == [] then []
    else if xs[0] == "" then NonEmpty(xs[1..])
    else [xs[0]] + NonEmpty(xs[1..])
  }

  /** `filter(Boolean)` keeps some of the strings it is given, none of them empty. */
  lemma {:induction false} NonEmptyKeeps(xs: seq<string>)
    ensures forall k :: 0 <= k < |NonEmpty(xs)| ==> NonEmpty(xs)[k] != "" && NonEmpty(xs)[k] in xs
  {
    if xs != [] {
      NonEmptyKeeps(xs[1..]);
    }
  }

  /** ... and it keeps every non-empty one: the list is empty exactly when
      every input string is empty. */
  lemma {:induction false} NonEmptyKeepsAll(xs: seq<string>)
    ensures forall k :: 0 <= k < |xs| && xs[k] != "" ==> xs[k] in NonEmpty(xs)
    ensures NonEmpty(xs) == [] <==> forall k :: 0 <= k < |xs| ==> xs[k] == ""
  {
    if xs != [] {
      NonEmptyKeepsAll(xs[1..]);
      assert forall k :: 1 <= k < |xs| ==> xs[k] == xs[1..][k - 1];
    }
  }

  /** On one string the filter keeps it exactly when it is non-empty; with
      `NonEmptyConcat` this determines `NonEmpty` on every list, order included. */
  lemma NonEmptySingle(x: string)
    ensures NonEmpty([x]) == if x == "" then [] else [x]
  {
    assert [x][1..] == [];
  }

  /** What every parsed ingredient looks like: non-empty, trimmed, comma-free. */
  predicate IsIngredient(x: string) {
    x != "" && IsTrimmed(x) && ',' !in x
  }

  /** The ingredient list sent with the query. */
  function Parse(input: string): (ingredients: seq<string>)
    ensures |ingredients| <= Count(input, ',') + 1
  {
    var pieces := Split(input, ',');
    TrimAllTrims(pieces);
    NonEmpty(TrimAll(pieces))
  }

  /** Every parsed ingredient is non-empty, trimmed and comma-free. */
  lemma ParseElements(input: string)
    ensures forall k :: 0 <= k < |Parse(input)| ==> IsIngredient(Parse(input)[k])
  {
    var pieces := Split(input, ',');
    SplitPiecesFree(input, ',');
    TrimAllTrims(pieces);
    NonEmptyKeeps(TrimAll(pieces));
  }

  /** `.map((s) => s.trim())` trims each piece in place and brings in no comma. */
  lemma {:induction false} TrimAllTrims(xs: seq<string>)
    ensures |TrimAll(xs)| == |xs|
    ensures forall k :: 0 <= k < |xs| ==> TrimAll(xs)[k] == Trim(xs[k])
    ensures forall k :: 0 <= k < |xs| ==> IsTrimmed(TrimAll(xs)[k]) && (',' !in xs[k] ==> ',' !in TrimAll(xs)[k])
  {
    if xs != [] {
      TrimAllTrims(xs[1..]);
      if ',' in Trim(xs[0]) { TrimWithin(xs[0], ','); }
    }
  }

  /** `map` and `filter` both work piece by piece. */
  lemma {:induction false} TrimAllConcat(a: seq<string>, b: seq<string>)
    ensures TrimAll(a + b) == TrimAll(a) + TrimAll(b)
  {
    if a != [] {
      assert (a + b)[1..] == a[1..] + b;
      TrimAllConcat(a[1..], b);
    } else {
      assert a + b == b;
    }
  }

  lemma {:induction false} NonEmptyConcat(a: seq<string>, b: seq<string>)
    ensures NonEmpty(a + b) == NonEmpty(a) + NonEmpty(b)
  {
    if a != [] {
      assert (a + b)[1..] == a[1..] + b;
      NonEmptyConcat(a[1..], b);
    } else {
      assert a + b == b;
    }
  }

  /** Order is kept and nothing is merged: the ingredients of two comma-separated
      parts are those of the first followed by those of the second. */
  lemma ParseAround(a: string, b: string)
    ensures Parse(a + "," + b) == Parse(a) + Parse(b)
  {
    SplitAround(a, b, ',');
    TrimAllConcat(Split(a, ','), Split(b, ','));
    NonEmptyConcat(TrimAll(Split(a, ',')), TrimAll(Split(b, ',')));
  }

  /** A comma-free input gives its trimmed self, or nothing when it is blank. */
  lemma ParseNoComma(s: string)
    requires ',' !in s
    ensures Parse(s) == if AllWhiteSpace(s) then [] else [Trim(s)]
  {
    SplitNoSeparator(s, ',');
    TrimBlank(s);
    assert TrimAll([s]) == [Trim(s)];
  }

  /** Nothing but commas and white space. */
  predicate IsBlank(s: string) {
    forall k :: 0 <= k < |s| ==> s[k] == ',' || IsWhiteSpace(s[k])
  }

  lemma BlankAround(a: string, b: string)
    ensures IsBlank(a + "," + b) <==> IsBlank(a) && IsBlank(b)
  {
    var s := a + "," + b;
    if IsBlank(s) {
      forall k | 0 <= k < |a| ensures a[k] == ',' || IsWhiteSpace(a[k]) { assert a[k] == s[k]; }
      forall k | 0 <= k < |b| ensures b[k] == ',' || IsWhiteSpace(b[k]) { assert b[k] == s[|a| + 1 + k]; }
    }
  }

  /** The list is empty exactly when the input holds nothing but commas and
      white space (in particular for the empty input). */
  lemma {:induction false} ParseEmpty(s: string)
    ensures Parse(s) == [] <==> IsBlank(s)
    decreases |s|
  {
    if ',' in s {
      var i :| 0 <= i < |s| && s[i] == ',';
      var a, b := s[..i], s[i + 1..];
      assert s == a + "," + b;
      ParseAround(a, b);
      BlankAround(a, b);
      ParseEmpty(a);
      ParseEmpty(b);
    } else {
      ParseNoComma(s);
    }
  }

  /** Parsing a list that is already normalised, written back with commas,
      gives that list again. */
  lemma {:induction false} ParseJoin(xs: seq<string>)
    requires forall k :: 0 <= k < |xs| ==> IsIngredient(xs[k])
    ensures Parse(Join(xs, ",")) == xs
  {
    if |xs| == 1 {
      ParseNoComma(xs[0]);
      TrimTrimmed(xs[0]);
    } else if |xs| > 1 {
      ParseJoin(xs[1..]);
      ParseAround(xs[0], Join(xs[1..], ","));
      ParseNoComma(xs[0]);
      TrimTrimmed(xs[0]);
      assert [xs[0]] + xs[1..] == xs;
    }
  }

  /** Parsing is idempotent on its own output. */
  lemma ParseNormalises(s: string)
    ensures Parse(Join(Parse(s), ",")) == Parse(s)
  {
    ParseElements(s);
    ParseJoin(Parse(s));
  }

  /** An input that is already a single ingredient parses to itself. */
  lemma ParseSingle(x: string)
    requires IsIngredient(x)
    ensures Parse(x) == [x]
  {
    ParseNoComma(x);
    TrimTrimmed(x);
  }

  /** The shape of `"a, b ,,c"`, which gives `["a", "b", "c"]`: padding is
      stripped and the empty piece between the two commas is dropped. */
  lemma ParsePaddedList(a: string, b: string, c: string)
    requires IsIngredient(a) && IsIngredient(b) && IsIngredient(c)
    ensures Parse(a + ", " + b + " ,," + c) == [a, b, c]
  {
    var rest := " " + b + " ";
    var tail := "," + c;
    assert a + ", " + b + " ,," + c == a + "," + (rest + "," + tail);
    ParseAround(a, rest + "," + tail);
    ParseAround(rest, tail);
    ParseSingle(a);
    ParseSpaced(b);
    ParseLeadingComma(c);
    ParseSingle(c);
  }

  lemma ParseSpaced(b: string)
    requires IsIngredient(b)
    ensures Parse(" " + b + " ") == [b]
  {
    var s := " " + b + " ";
    TrimPadded(" ", b, " ");
    assert ',' !in s;
    ParseNoComma(s);
  }

  /** A leading comma adds nothing. */
  lemma ParseLeadingComma(c: string)
    ensures Parse("," + c) == Parse(c)
  {
    var e := c[..0];
    assert "," + c == e + "," + c;
    ParseAround(e, c);
    ParseNoComma(e);
  }

  /** Duplicates are kept. */
  lemma ParseKeepsDuplicates(x: string)
    requires IsIngredient(x)
    ensures Parse(x + "," + x) == [x, x]
  {
    ParseAround(x, x);
    ParseSingle(x);
  }
}
