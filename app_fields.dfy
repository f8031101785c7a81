/** The row-wise enrichment of app.py: the instrument-symbol classifier and the
    parser of list-shaped text fields. */
module AppFields {
  import opened Wrappers
  import opened Strings
  import opened Cells
  import opened Seqs

  /** `normalize_asset_name`: delete every character outside `[a-zA-Z0-9]`, then
      classify the upper-cased rest by the roots NQ, ES and CL, tried in that order;
      a symbol matching none of them is its own root. */
  function NormalizeAssetName(asset: string): (r: string)
    ensures AllAlnum(r)
    ensures var u := AsciiUpper(KeepAlnum(asset));
            && (r == "NQ" <==> Contains(u, "NQ"))
            && (r == "ES" <==> !Contains(u, "NQ") && Contains(u, "ES"))
            && (r == "CL" <==> !Contains(u, "NQ") && !Contains(u, "ES") && Contains(u, "CL"))
            && (!Contains(u, "NQ") && !Contains(u, "ES") && !Contains(u, "CL") ==> r == KeepAlnum(asset))
  {
    var cleaned := KeepAlnum(asset);
    var u := AsciiUpper(cleaned);
    if Contains(u, "NQ") then "NQ"
    else if Contains(u, "ES") then "ES"
    else if Contains(u, "CL") then "CL"
    else
      RootIsUnmatched(cleaned, "NQ");
      RootIsUnmatched(cleaned, "ES");
      RootIsUnmatched(cleaned, "CL");
      cleaned
  }

  /** A cleaned symbol whose upper-case form lacks a root is not that root. */
  lemma RootIsUnmatched(cleaned: string, root: string)
    requires |root| == 2 && AsciiUpper(root) == root
    requires !Contains(AsciiUpper(cleaned), root)
    ensures cleaned != root
  {
    if cleaned == root {
      assert OccursAt(AsciiUpper(cleaned), root, 0);
    }
  }

  lemma RootsAreUpper()
    ensures AsciiUpper("NQ") == "NQ" && AsciiUpper("ES") == "ES" && AsciiUpper("CL") == "CL"
    ensures AllAlnum("NQ") && AllAlnum("ES") && AllAlnum("CL")
  {
  }

  /** Each root contains only itself among the three. */
  lemma RootsAreDistinct()
    ensures Contains("NQ", "NQ") && !Contains("NQ", "ES") && !Contains("NQ", "CL")
    ensures Contains("ES", "ES") && !Contains("ES", "NQ") && !Contains("ES", "CL")
    ensures Contains("CL", "CL") && !Contains("CL", "NQ") && !Contains("CL", "ES")
  {
    assert OccursAt("NQ", "NQ", 0);
    assert OccursAt("ES", "ES", 0);
    assert OccursAt("CL", "CL", 0);
  }

  /** Normalizing a root symbol again gives the same root: the classifier is idempotent. */
  lemma {:induction false} NormalizeAssetNameIdempotent(asset: string)
    ensures NormalizeAssetName(NormalizeAssetName(asset)) == NormalizeAssetName(asset)
  {
    var r := NormalizeAssetName(asset);
    RootsAreUpper();
    RootsAreDistinct();
    KeepAlnumFixpoint(r);
    if r != "NQ" && r != "ES" && r != "CL" {
      var u := AsciiUpper(KeepAlnum(asset));
      assert !Contains(u, "NQ") && !Contains(u, "ES") && !Contains(u, "CL");
      assert r == KeepAlnum(asset);
    }
  }

  /** Micro and mini contracts share a root: "NQM5" and "MNQM5" both map to "NQ". */
  lemma NormalizeAssetNameNqExamples()
    ensures NormalizeAssetName("NQM5") == "NQ"
    ensures NormalizeAssetName("MNQM5") == "NQ"
  {
    NqOfNqm5();
    NqOfMnqm5();
  }

  lemma NqOfNqm5()
    ensures NormalizeAssetName("NQM5") == "NQ"
  {
    NqAt("NQM5", 0);
  }

  lemma NqOfMnqm5()
    ensures NormalizeAssetName("MNQM5") == "NQ"
  {
    NqAt("MNQM5", 1);
  }

  /** A clean symbol without lower-case letters holding "NQ" is classified as NQ. */
  lemma NqAt(s: string, k: int)
    requires AllAlnum(s) && NoLower(s) && OccursAt(s, "NQ", k)
    ensures NormalizeAssetName(s) == "NQ"
  {
    AllAlnumFixes(s);
    UpperOfNoLower(s);
  }

  predicate NoLower(s: string) {
    forall k :: 0 <= k < |s| ==> !('a' <= s[k] <= 'z')
  }

  lemma UpperOfNoLower(s: string)
    requires NoLower(s)
    ensures AsciiUpper(s) == s
  {
  }

  /** A symbol with no known root keeps its text. */
  lemma NormalizeAssetNameOwnRoot()
    ensures NormalizeAssetName("XYZ123") == "XYZ123"
  {
    OwnRootOf("XYZ123");
  }

  /** A clean symbol without lower-case letters that holds none of the roots is its
      own root. */
  lemma OwnRootOf(u: string)
    requires AllAlnum(u) && NoLower(u)
    requires forall k :: 0 <= k < |u| ==> u[k] != 'N' && u[k] != 'E' && u[k] != 'C'
    ensures NormalizeAssetName(u) == u
  {
    AllAlnumFixes(u);
    UpperOfNoLower(u);
    forall k | 0 <= k <= |u| ensures !OccursAt(u, "NQ", k) && !OccursAt(u, "ES", k) && !OccursAt(u, "CL", k) {
      if 0 <= k <= |u| - 2 { assert u[k..k + 2][0] == u[k]; }
    }
  }

  lemma AllAlnumFixes(s: string)
    requires AllAlnum(s)
    ensures KeepAlnum(s) == s
  {
    KeepAlnumFixpoint(s);
  }

  // ---------------------------------------------------------------------------
  // parse_list_field

  /** The characters `field.strip('[]')` removes. */
  const Brackets: set<char> := {'[', ']'}

  /** What `parse_list_field` makes of a cell: all numbers, all strings, or the
      cell itself when it is not text. */
  datatype ListField = Floats(xs: seq<real>) | Strings(ss: seq<string>) | Unchanged(c: Cell)

  /** A piece kept by the comprehension: non-empty and trimmed of whitespace. */
  predicate Trimmed(p: string) {
    TrimmedOf(p, Whitespace)
  }

  predicate TrimmedOf(p: string, cs: set<char>) {
    p != [] && p[0] !in cs && p[|p| - 1] !in cs
  }

  /** `[x.strip() for x in xs if x.strip()]`. */
  function TrimNonBlank(xs: seq<string>): (r: seq<string>)
    ensures |r| <= |xs|
    ensures forall p | p in r :: Trimmed(p)
  {
    TrimEach(xs, Whitespace)
  }

  /** Strip `cs` from both ends of every piece and drop the pieces left empty. */
  function TrimEach(xs: seq<string>, cs: set<char>): (r: seq<string>)
    ensures |r| <= |xs|
    ensures forall p | p in r :: TrimmedOf(p, cs)
  {
    if xs == [] then []
    else
      var t := Strip(xs[0], cs);
      var rest := TrimEach(xs[1..], cs);
      if t == [] then rest else [t] + rest
  }

  /** The trimmed, non-blank pieces of `s.strip('[]').split(',')`. */
  function Pieces(s: string): (r: seq<string>)
    ensures forall p | p in r :: Trimmed(p)
  {
    TrimNonBlank(Split(Strip(s, Brackets), ','))
  }

  /** Every piece stripped of `cs`, blank or not, in order. */
  function StripAll(xs: seq<string>, cs: set<char>): (r: seq<string>)
    ensures |r| == |xs|
    ensures forall k :: 0 <= k < |xs| ==> r[k] == Strip(xs[k], cs)
  {
    seq(|xs|, k requires 0 <= k < |xs| => Strip(xs[k], cs))
  }

  predicate NonEmpty(p: string) {
    p != []
  }

  /** The kept pieces are the stripped pieces of the split, in order, less the
      ones left empty; they hold no comma, and a piece of the split is dropped
      exactly when it is blank. */
  lemma TrimNonBlankSpec(xs: seq<string>)
    requires forall x | x in xs :: ',' !in x
    ensures TrimNonBlank(xs) == Filter(StripAll(xs, Whitespace), NonEmpty)
    ensures forall p | p in TrimNonBlank(xs) :: ',' !in p
    ensures |TrimNonBlank(xs)| == |xs| - Blanks(xs)
  {
    TrimEachSpec(xs, Whitespace);
    TrimEachIsFilter(xs, Whitespace);
  }

  lemma {:induction false} TrimEachIsFilter(xs: seq<string>, cs: set<char>)
    ensures TrimEach(xs, cs) == Filter(StripAll(xs, cs), NonEmpty)
  {
    if xs != [] {
      var ys := StripAll(xs, cs);
      assert ys[1..] == StripAll(xs[1..], cs);
      TrimEachIsFilter(xs[1..], cs);
    }
  }

  lemma {:induction false} TrimEachSpec(xs: seq<string>, cs: set<char>)
    requires forall x | x in xs :: ',' !in x
    ensures forall p | p in TrimEach(xs, cs) :: ',' !in p
    ensures |TrimEach(xs, cs)| == |xs| - BlanksOf(xs, cs)
  {
    if xs != [] {
      assert xs[0] in xs;
      assert forall x | x in xs[1..] :: x in xs;
      TrimEachSpec(xs[1..], cs);
      var t := Strip(xs[0], cs);
      StripIsSlice(xs[0], cs);
      assert ',' !in t;
      StripEmpty(xs[0], cs);
    }
  }

  /** Number of split pieces that hold only whitespace. */
  function Blanks(xs: seq<string>): (n: nat)
    ensures n <= |xs|
  {
    BlanksOf(xs, Whitespace)
  }

  function BlanksOf(xs: seq<string>, cs: set<char>): (n: nat)
    ensures n <= |xs|
  {
    if xs == [] then 0
    else (if forall i :: 0 <= i < |xs[0]| ==> xs[0][i] in cs then 1 else 0) + BlanksOf(xs[1..], cs)
  }

  /** Every piece is non-empty, trimmed and comma-free, and there is one piece per
      non-blank comma-separated field of the bracket-stripped text. */
  lemma PiecesSpec(s: string)
    ensures forall p | p in Pieces(s) :: Trimmed(p) && ',' !in p
    ensures var parts := Split(Strip(s, Brackets), ',');
            |Pieces(s)| == |parts| - Blanks(parts)
  {
    var parts := Split(Strip(s, Brackets), ',');
    SplitJoin(Strip(s, Brackets), ',');
    assert forall x | x in parts :: ',' !in x;
    TrimNonBlankSpec(parts);
    assert Pieces(s) == TrimNonBlank(parts);
  }

  /** `[float(x) for x in ps]`, or `None` when some `float(x)` raises. */
  function ParseAll(ps: seq<string>, parse: Parser): (r: Option<seq<real>>)
    ensures r.Some? <==> forall k :: 0 <= k < |ps| ==> parse(ps[k]).Some?
    ensures r.Some? ==> |r.value| == |ps| && forall k :: 0 <= k < |ps| ==> parse(ps[k]) == Some(r.value[k])
  {
    if ps == [] then Some([])
    else match (parse(ps[0]), ParseAll(ps[1..], parse))
      case (Some(x), Some(xs)) =>
        assert forall k :: 0 < k < |ps| ==> ps[k] == ps[1..][k - 1];
        Some([x] + xs)
      case _ => None
  }

  /** `parse_list_field`: text is split into pieces that are either all converted
      to numbers or, if any conversion fails, all kept as strings; a cell that is
      not text is returned unchanged. */
  function ParseListField(c: Cell, parse: Parser): (r: ListField)
    ensures r.Unchanged? <==> !c.Text?
    ensures r.Unchanged? ==> r.c == c
    ensures c.Text? ==> (r.Floats? <==> forall k :: 0 <= k < |Pieces(c.s)| ==> parse(Pieces(c.s)[k]).Some?)
    ensures r.Floats? ==> |r.xs| == |Pieces(c.s)|
                          && forall k :: 0 <= k < |r.xs| ==> parse(Pieces(c.s)[k]) == Some(r.xs[k])
    ensures r.Strings? ==> r.ss == Pieces(c.s) && exists k :: 0 <= k < |r.ss| && parse(r.ss[k]).None?
  {
    match c
    case Text(s) =>
      (match ParseAll(Pieces(s), parse)
       case Some(xs) => Floats(xs)
       case None => Strings(Pieces(s)))
    case _ => Unchanged(c)
  }

  /** Worked example `"[x,y,z]"`: when every piece converts, the field is the list of
      the three numbers (so `"[1,2,3]"` gives `[1.0, 2.0, 3.0]`). */
  lemma ParseListFieldAllNumbers(x: char, y: char, z: char, a: real, b: real, c: real, parse: Parser)
    requires Plain(x) && Plain(y) && Plain(z)
    requires parse([x]) == Some(a) && parse([y]) == Some(b) && parse([z]) == Some(c)
    ensures ParseListField(Text(['['] + [x, ',', y, ',', z] + [']']), parse) == Floats([a, b, c])
  {
    PiecesOfThree(x, y, z);
    ParseAllThree(x, y, z, a, b, c, parse);
  }

  lemma ParseAllThree(x: char, y: char, z: char, a: real, b: real, c: real, parse: Parser)
    requires parse([x]) == Some(a) && parse([y]) == Some(b) && parse([z]) == Some(c)
    ensures ParseAll([[x], [y], [z]], parse) == Some([a, b, c])
  {
    ParseAllCons([z], [], c, [], parse);
    assert [[z]] + [] == [[z]] && [c] + [] == [c];
    ParseAllCons([y], [[z]], b, [c], parse);
    assert [[y]] + [[z]] == [[y], [z]] && [b] + [c] == [b, c];
    ParseAllCons([x], [[y], [z]], a, [b, c], parse);
    assert [[x]] + [[y], [z]] == [[x], [y], [z]] && [a] + [b, c] == [a, b, c];
  }

  lemma ParseAllCons(p: string, rest: seq<string>, x: real, xs: seq<real>, parse: Parser)
    requires parse(p) == Some(x) && ParseAll(rest, parse) == Some(xs)
    ensures ParseAll([p] + rest, parse) == Some([x] + xs)
  {
    assert ([p] + rest)[1..] == rest;
  }

  /** Worked example `"[x,y,z]"`: when the first piece does not convert, the whole
      field stays strings (so `"[a,2,3]"` gives `["a", "2", "3"]`). */
  lemma ParseListFieldFallback(x: char, y: char, z: char, parse: Parser)
    requires Plain(x) && Plain(y) && Plain(z)
    requires parse([x]) == None
    ensures ParseListField(Text(['['] + [x, ',', y, ',', z] + [']']), parse) == Strings([[x], [y], [z]])
  {
    PiecesOfThree(x, y, z);
  }

  /** A character that is kept as it is inside a piece. */
  predicate Plain(c: char) {
    c !in Whitespace && c !in Brackets && c != ','
  }

  /** `"[x,y,z]"` splits into three one-letter pieces. */
  lemma PiecesOfThree(x: char, y: char, z: char)
    requires Plain(x) && Plain(y) && Plain(z)
    ensures Pieces(['['] + [x, ',', y, ',', z] + [']']) == [[x], [y], [z]]
  {
    var m := [x, ',', y, ',', z];
    StripEnclosed('[', m, ']', Brackets);
    SplitThree(x, y, z);
    TrimThree(x, y, z);
  }

  lemma SplitThree(x: char, y: char, z: char)
    requires Plain(x) && Plain(y) && Plain(z)
    ensures Split([x, ',', y, ',', z], ',') == [[x], [y], [z]]
  {
    assert [x, ',', y, ',', z] == [x] + [','] + ([y] + [','] + [z]);
    SplitAtSep([x], ',', [y] + [','] + [z]);
    SplitAtSep([y], ',', [z]);
    SplitNoSep([z], ',');
  }

  lemma TrimThree(x: char, y: char, z: char)
    requires Plain(x) && Plain(y) && Plain(z)
    ensures TrimNonBlank([[x], [y], [z]]) == [[x], [y], [z]]
  {
    assert TrimNonBlank([]) == [];
    TrimKeeps([z], []);
    assert [[z]] + [] == [[z]];
    TrimKeeps([y], [[z]]);
    assert [[y]] + [[z]] == [[y], [z]];
    TrimKeeps([x], [[y], [z]]);
    assert [[x]] + [[y], [z]] == [[x], [y], [z]];
  }

  /** A piece that is already trimmed and non-blank is kept as it is. */
  lemma TrimKeeps(p: string, rest: seq<string>)
    requires Trimmed(p)
    ensures TrimNonBlank([p] + rest) == [p] + TrimNonBlank(rest)
  {
    TrimEachKeeps(p, rest, Whitespace);
  }

  lemma TrimEachKeeps(p: string, rest: seq<string>, cs: set<char>)
    requires TrimmedOf(p, cs)
    ensures TrimEach([p] + rest, cs) == [p] + TrimEach(rest, cs)
  {
    StripNothing(p, cs);
    assert ([p] + rest)[1..] == rest;
  }
}
