/** The pure parts of the ingredient list: parsing the "Add Multiple" text
    area, exporting the list as text, and the quick-add suggestions. */
module Ingredients {
  import opened Text

  /** The ten quick-add suggestion buttons, in display order. */
  const Suggestions: seq<string> :=
    ["Chicken", "Rice", "Tomatoes", "Onions", "Garlic",
     "Pasta", "Cheese", "Eggs", "Potatoes", "Bell Peppers"]

  /** An entry as the multi-add parser produces it: non-empty and with no
      whitespace at either end. */
  predicate IsClean(x: string) {
    x != [] && IsStripped(x)
  }

  /** Every entry of the list is clean. */
  predicate AllClean(xs: seq<string>) {
    forall k :: 0 <= k < |xs| ==> IsClean(xs[k])
  }

  /** The delimiter the multi-add parser splits on: a comma when the text
      holds one, a newline otherwise. */
  function Delimiter(raw: string): (d: char)
    ensures d == ',' <==> ',' in raw
    ensures d != ',' ==> d == '\n'
  {
    if ',' in raw then ',' else '\n'
  }

  /** `[p.strip() for p in pieces if p.strip()]`: at most one entry per
      piece, and every entry clean. */
  function CleanPieces(pieces: seq<string>): (r: seq<string>)
    ensures |r| <= |pieces|
    ensures AllClean(r)
  {
    if pieces == [] then []
    else
      var t := Strip(pieces[0]);
      if t == [] then CleanPieces(pieces[1..]) else [t] + CleanPieces(pieces[1..])
  }

  /** Every cleaned entry is the stripped form of some piece. */
  lemma {:induction false} CleanPiecesFromPieces(pieces: seq<string>)
    ensures forall x :: x in CleanPieces(pieces) ==> exists p :: p in pieces && Strip(p) == x
  {
    if pieces != [] {
      CleanPiecesFromPieces(pieces[1..]);
      assert forall p :: p in pieces[1..] ==> p in pieces;
    }
  }

  /** Every piece whose stripped form is non-empty appears, stripped, among
      the entries. */
  lemma {:induction false} CleanPiecesKeeps(pieces: seq<string>)
    ensures forall p :: p in pieces && Strip(p) != [] ==> Strip(p) in CleanPieces(pieces)
  {
    if pieces != [] {
      CleanPiecesKeeps(pieces[1..]);
      assert forall p :: p in pieces ==> p == pieces[0] || p in pieces[1..];
    }
  }

  /** A list that is already clean passes through unchanged. */
  lemma {:induction false} CleanPiecesOfClean(pieces: seq<string>)
    requires AllClean(pieces)
    ensures CleanPieces(pieces) == pieces
  {
    if pieces != [] {
      assert IsClean(pieces[0]);
      assert AllClean(pieces[1..]) by {
        forall k | 0 <= k < |pieces| - 1 ensures IsClean(pieces[1..][k]) {
          assert pieces[1..][k] == pieces[k + 1];
        }
      }
      CleanPiecesOfClean(pieces[1..]);
      assert [pieces[0]] + pieces[1..] == pieces;
    }
  }

  /** A character no piece holds is held by no cleaned entry. */
  lemma {:induction false} CleanPiecesAvoid(pieces: seq<string>, c: char)
    requires forall k :: 0 <= k < |pieces| ==> c !in pieces[k]
    ensures forall k :: 0 <= k < |CleanPieces(pieces)| ==> c !in CleanPieces(pieces)[k]
  {
    if pieces != [] {
      StripAvoids(pieces[0], c);
      CleanPiecesAvoid(pieces[1..], c);
    }
  }

  /** What "Add All" appends: the text split on its delimiter, each piece
      stripped, empty pieces dropped. Every entry is clean and free of the
      delimiter used, and empty text yields nothing. */
  function ParseMany(raw: string): (r: seq<string>)
    ensures AllClean(r)
    ensures ',' in raw ==> forall k :: 0 <= k < |r| ==> ',' !in r[k]
    ensures ',' !in raw ==> forall k :: 0 <= k < |r| ==> ',' !in r[k] && '\n' !in r[k]
    ensures raw == [] ==> r == []
  {
    var pieces := Split(raw, Delimiter(raw));
    PiecesAvoid(raw, pieces, CleanPieces(pieces));
    ParseEmpty();
    CleanPieces(pieces)
  }

  lemma PiecesAvoid(raw: string, pieces: seq<string>, r: seq<string>)
    requires pieces == Split(raw, Delimiter(raw)) && r == CleanPieces(pieces)
    ensures ',' in raw ==> forall k :: 0 <= k < |r| ==> ',' !in r[k]
    ensures ',' !in raw ==> forall k :: 0 <= k < |r| ==> ',' !in r[k] && '\n' !in r[k]
  {
    var d := Delimiter(raw);
    CleanPiecesAvoid(pieces, d);
    if ',' !in raw {
      forall k | 0 <= k < |pieces| ensures ',' !in pieces[k] {
        JoinPieceAvoids(pieces, [d], k, ',');
      }
      CleanPiecesAvoid(pieces, ',');
    }
  }

  /** Empty text splits into one empty piece, which is dropped. */
  lemma ParseEmpty()
    ensures CleanPieces(Split("", Delimiter(""))) == []
  {
  }

  /** A character absent from a joined text is absent from each piece. */
  lemma {:induction false} JoinPieceAvoids(xs: seq<string>, sep: string, k: nat, c: char)
    requires k < |xs|
    requires c !in Join(xs, sep)
    ensures c !in xs[k]
  {
    if |xs| > 1 {
      assert Join(xs, sep) == xs[0] + sep + Join(xs[1..], sep);
      if k > 0 {
        JoinPieceAvoids(xs[1..], sep, k - 1, c);
      }
    }
  }

  /** The "Export List" text: the entries joined by newlines. */
  function Export(xs: seq<string>): string {
    Join(xs, "\n")
  }

  /** An entry that survives an export and re-import unchanged. */
  predicate IsExportable(x: string) {
    IsClean(x) && ',' !in x && '\n' !in x
  }

  /** Importing the exported text into an empty list gives the list back,
      when every entry is clean and free of commas and newlines. */
  lemma ParseExportRoundTrip(xs: seq<string>)
    requires forall k :: 0 <= k < |xs| ==> IsExportable(xs[k])
    ensures ParseMany(Export(xs)) == xs
  {
    if xs != [] {
      ParseNewlineSeparated(xs);
      CleanPiecesOfClean(xs);
    }
  }

  /** The comprehension works piece by piece and keeps the pieces' order:
      cleaning a concatenation cleans each part and concatenates. */
  lemma {:induction false} CleanPiecesAppend(a: seq<string>, b: seq<string>)
    ensures CleanPieces(a + b) == CleanPieces(a) + CleanPieces(b)
  {
    if a != [] {
      assert (a + b)[1..] == a[1..] + b;
      CleanPiecesAppend(a[1..], b);
    } else {
      assert a + b == b;
    }
  }

  /** The first piece is cleaned before the rest. */
  lemma CleanPiecesCons(p: string, rest: seq<string>)
    ensures CleanPieces([p] + rest) ==
      (if Strip(p) == [] then [] else [Strip(p)]) + CleanPieces(rest)
  {
    assert ([p] + rest)[1..] == rest;
  }

  /** Text holding commas is cut at every comma, and each piece is then
      stripped and kept when non-empty, whatever newlines it holds. */
  lemma ParseCommaSeparated(xs: seq<string>)
    requires |xs| >= 2
    requires forall k :: 0 <= k < |xs| ==> ',' !in xs[k]
    ensures ParseMany(Join(xs, [','])) == CleanPieces(xs)
  {
    var raw := Join(xs, [',']);
    assert raw[|xs[0]|] == ',';
    SplitJoin(xs, ',');
  }

  /** Text without commas is cut at every newline. */
  lemma ParseNewlineSeparated(xs: seq<string>)
    requires |xs| >= 1
    requires forall k :: 0 <= k < |xs| ==> ',' !in xs[k] && '\n' !in xs[k]
    ensures ParseMany(Join(xs, "\n")) == CleanPieces(xs)
  {
    JoinAvoids(xs, "\n", ',');
    SplitJoin(xs, '\n');
  }

  /** Spaces around the commas are stripped away: `a, b ,c` adds the
      three entries. */
  lemma CommaSeparatedThree(a: string, b: string, c: string)
    requires IsExportable(a) && IsExportable(b) && IsExportable(c)
    ensures ParseMany(a + ", " + b + " ," + c) == [a, b, c]
  {
    var padded := " " + b + " ";
    JoinThree(a, padded, c, [',']);
    assert a + ", " + b + " ," + c == a + [','] + padded + [','] + c;
    ParseCommaSeparated([a, padded, c]);
    CleanPadded(a, b, c);
  }

  lemma CleanPadded(a: string, b: string, c: string)
    requires IsClean(a) && IsClean(b) && IsClean(c)
    ensures CleanPieces([a, " " + b + " ", c]) == [a, b, c]
  {
    var padded := " " + b + " ";
    StripPadding(" ", b, " ");
    CleanPiecesCons(a, [padded, c]);
    CleanPiecesCons(padded, [c]);
    CleanPiecesOfClean([c]);
  }

  /** One entry per line adds the same three entries. */
  lemma NewlineSeparatedThree(a: string, b: string, c: string)
    requires IsExportable(a) && IsExportable(b) && IsExportable(c)
    ensures ParseMany(a + "\n" + b + "\n" + c) == [a, b, c]
  {
    JoinThree(a, b, c, "\n");
    ParseNewlineSeparated([a, b, c]);
    CleanPiecesOfClean([a, b, c]);
  }

  lemma JoinThree(a: string, b: string, c: string, sep: string)
    ensures Join([a, b, c], sep) == a + sep + b + sep + c
  {
    assert [a, b, c][1..] == [b, c];
    assert [b, c][1..] == [c];
    assert Join([b, c], sep) == b + sep + c;
    assert Join([a, b, c], sep) == a + sep + (b + sep + c);
  }

  /** The worked instance: `"a, b ,c"` and `"a\nb\nc"` both add
      `["a", "b", "c"]`. */
  lemma ParseManyExample(comma: string, newline: string)
    requires comma == "a, b ,c" && newline == "a\nb\nc"
    ensures ParseMany(comma) == ["a", "b", "c"] && ParseMany(newline) == ["a", "b", "c"]
  {
    var a, b, c := "a", "b", "c";
    assert IsExportable(a) && IsExportable(b) && IsExportable(c);
    assert comma == a + ", " + b + " ," + c;
    assert newline == a + "\n" + b + "\n" + c;
    CommaSeparatedThree(a, b, c);
    NewlineSeparatedThree(a, b, c);
  }

  /** The exported text has one line per entry: cutting it at its line
      breaks gives the list back, when no entry holds a line break. */
  lemma ExportLines(xs: seq<string>)
    requires |xs| >= 1
    requires forall k :: 0 <= k < |xs| ==> '\n' !in xs[k]
    ensures Split(Export(xs), '\n') == xs
  {
    SplitJoin(xs, '\n');
  }

  /** An instance: two entries are written as two lines. */
  lemma ExportExample()
    ensures Export(["Chicken", "Rice"]) == "Chicken\nRice"
  {
  }

  /** The suggestions are clean, so adding one keeps the list clean. */
  lemma SuggestionsAreClean()
    ensures AllClean(Suggestions)
  {
  }
}
