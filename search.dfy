/** The search box shown above the category list: a debounced query, a fetch of
    every category and every code snippet, case-insensitive substring filtering
    of both, and the highlighting of the query inside the titles. */
module Search {
  import opened Wrappers
  import opened Text
  import opened Seqs
  import opened Api

  // ---------------------------------------------------------------------------
  // Filtering

  /** A category is kept when its lower-cased title contains the lower-cased
      query. The query is not trimmed here, unlike in the two gates. */
  predicate CategoryMatches(query: string, c: Category) {
    Contains(Lower(c.title), Lower(query))
  }

  /** A snippet is kept when its title or its body contains the query. */
  predicate CodeMatches(query: string, c: Code) {
    Contains(Lower(c.title), Lower(query)) || Contains(Lower(c.code), Lower(query))
  }

  function FilterCategories(cats: seq<Category>, query: string): (r: seq<Category>)
    ensures forall c :: c in r <==> c in cats && CategoryMatches(query, c)
    ensures forall c :: multiset(r)[c] == if CategoryMatches(query, c) then multiset(cats)[c] else 0
    ensures IsSubseq(r, cats)
  {
    Filter(cats, c => CategoryMatches(query, c))
  }

  function FilterCodes(codes: seq<Code>, query: string): (r: seq<Code>)
    ensures forall c :: c in r <==> c in codes && CodeMatches(query, c)
    ensures forall c :: multiset(r)[c] == if CodeMatches(query, c) then multiset(codes)[c] else 0
    ensures IsSubseq(r, codes)
  {
    Filter(codes, c => CodeMatches(query, c))
  }

  /** Matching ignores the case of the query, and of the title. */
  lemma MatchIgnoresCase(query: string, c: Category)
    ensures CategoryMatches(query, c) == CategoryMatches(Lower(query), c)
    ensures CategoryMatches(query, c) == CategoryMatches(query, c.(title := Lower(c.title)))
  {
    LowerIdempotent(query);
    LowerIdempotent(c.title);
  }

  /** "CAT" finds the category titled "Category One". */
  lemma UpperCaseQueryMatches()
    ensures CategoryMatches("CAT", Category("1", "Category One", ""))
  {
    assert Lower("CAT") == "cat";
    assert Lower("Category One")[0..3] == "cat";
    assert OccursAt(Lower("Category One"), Lower("CAT"), 0);
  }

  /** The query is matched untrimmed: a trailing space that no title has makes
      the search find nothing, although the gates let the query through. */
  lemma UntrimmedQueryMisses()
    ensures Trim("react ") == "react"
    ensures !CategoryMatches("react ", Category("1", "React", ""))
    ensures CategoryMatches("react", Category("1", "React", ""))
  {
    assert TrimStartIndex("react ") == 0;
    assert TrimEndIndex("react ", 0) == 5 by {
      assert "react "[..5] == "react";
    }
    assert "react "[0..5] == "react";
    assert Lower("React") == "react";
    assert OccursAt(Lower("React"), Lower("react"), 0);
  }

  // ---------------------------------------------------------------------------
  // Highlighting

  /** The query is spliced into a regular expression unescaped; the model only
      covers queries that hold no regular-expression metacharacter. */
  predicate IsLiteral(query: string) {
    forall i :: 0 <= i < |query| ==> !IsMetaChar(query[i])
  }

  predicate IsMetaChar(c: char) {
    c == '^' || c == '$' || c == '\\' || c == '.' || c == '*' || c == '+' || c == '?'
    || c == '(' || c == ')' || c == '[' || c == ']' || c == '{' || c == '}' || c == '|'
  }

  /** The query occurs at `j`, ignoring case, as the `i` flag matches it. */
  predicate OccursCi(text: string, query: string, j: int) {
    OccursAt(Lower(text), Lower(query), j)
  }

  /** Where a piece of a split lies in the text: from `lo` up to `hi`. */
  datatype Range = Range(lo: nat, hi: nat)

  /** The ranges lie end to end, from `a` to `b`. */
  predicate Tiles(rs: seq<Range>, a: nat, b: nat) {
    |rs| > 0 && rs[0].lo == a && rs[|rs| - 1].hi == b
    && forall k :: 0 <= k < |rs| - 1 ==> rs[k].hi == rs[k + 1].lo
  }

  /** Every range is well formed and ends by `n`. */
  predicate Within(rs: seq<Range>, n: nat) {
    forall k :: 0 <= k < |rs| ==> rs[k].lo <= rs[k].hi <= n
  }

  /** Where `text.split(/(query)/gi)` cuts the text from position `p`: the gap
      before the leftmost match, the match (the captured group), and so on from
      the end of the match, then the rest after the last match. The search runs
      on `lt` and `lq`, the text and the query lower-cased. */
  function Ranges(lt: string, lq: string, p: nat): (r: seq<Range>)
    requires |lq| > 0 && p <= |lt|
    ensures |r| >= 1
    decreases |lt| - p
  {
    match IndexOf(lt, lq, p)
    case None => [Range(p, |lt|)]
    case Some(i) => [Range(p, i), Range(i, i + |lq|)] + Ranges(lt, lq, i + |lq|)
  }

  /** The text of each range. */
  function Slices(text: string, rs: seq<Range>): (r: seq<string>)
    requires Within(rs, |text|)
    ensures |r| == |rs|
    ensures forall k :: 0 <= k < |rs| ==> r[k] == text[rs[k].lo..rs[k].hi]
  {
    seq(|rs|, k requires 0 <= k < |rs| => text[rs[k].lo..rs[k].hi])
  }

  /** The pieces `split` returns: the text cut at its ranges. */
  function Pieces(text: string, lt: string, lq: string): (r: seq<string>)
    requires |lt| == |text| && |lq| > 0
    ensures |r| == |Ranges(lt, lq, 0)|
  {
    RangesTile(lt, lq, 0);
    Slices(text, Ranges(lt, lq, 0))
  }

  datatype Part = Plain(text: string) | Marked(text: string)

  /** What `highlightText` returns: the text itself, or the list of parts. */
  datatype Highlighted = Unchanged(text: string) | Parts(parts: seq<Part>)

  /** One piece as the map over the split renders it: in a mark exactly when
      it equals the query, ignoring case. */
  function MarkPart(piece: string, query: string): (r: Part)
    ensures r.text == piece
    ensures r.Marked? <==> Lower(piece) == Lower(query)
  {
    if Lower(piece) == Lower(query) then Marked(piece) else Plain(piece)
  }

  function HighlightText(text: string, query: string): (h: Highlighted)
    requires IsLiteral(query)
    ensures h.Unchanged? <==> query == ""
    ensures h.Unchanged? ==> h.text == text
    ensures h.Parts? ==> |h.parts| >= 1
  {
    if query == "" then Unchanged(text)
    else
      var pieces := Pieces(text, Lower(text), Lower(query));
      Parts(seq(|pieces|, i requires 0 <= i < |pieces| => MarkPart(pieces[i], query)))
  }

  function PartTexts(parts: seq<Part>): (r: seq<string>)
    ensures |r| == |parts|
    ensures forall i :: 0 <= i < |parts| ==> r[i] == parts[i].text
  {
    seq(|parts|, i requires 0 <= i < |parts| => parts[i].text)
  }

  /** The split at a match: the gap, the match, and the ranges after it. */
  lemma RangesMatch(lt: string, lq: string, p: nat, i: nat)
    requires |lq| > 0 && p <= |lt|
    requires IndexOf(lt, lq, p) == Some(i)
    ensures p <= i && i + |lq| <= |lt|
    ensures Ranges(lt, lq, p) == [Range(p, i), Range(i, i + |lq|)] + Ranges(lt, lq, i + |lq|)
  {
  }

  /** With no match left, the rest is one range. */
  lemma RangesNoMatch(lt: string, lq: string, p: nat)
    requires |lq| > 0 && p <= |lt|
    requires IndexOf(lt, lq, p) == None
    ensures Ranges(lt, lq, p) == [Range(p, |lt|)]
  {
  }

  /** Past the first gap and match, the ranges are those from the end of the
      match. */
  lemma RangesShift(lt: string, lq: string, p: nat, i: nat, n: nat)
    requires |lq| > 0 && p <= |lt|
    requires IndexOf(lt, lq, p) == Some(i)
    requires n + 2 < |Ranges(lt, lq, p)|
    ensures i + |lq| <= |lt|
    ensures n < |Ranges(lt, lq, i + |lq|)|
    ensures Ranges(lt, lq, p)[n + 2] == Ranges(lt, lq, i + |lq|)[n]
  {
    RangesMatch(lt, lq, p, i);
  }

  /** The ranges cover the text from `p` to its end, end to end. */
  lemma {:induction false} RangesTile(lt: string, lq: string, p: nat)
    requires |lq| > 0 && p <= |lt|
    ensures Tiles(Ranges(lt, lq, p), p, |lt|) && Within(Ranges(lt, lq, p), |lt|)
    decreases |lt| - p
  {
    match IndexOf(lt, lq, p)
    case None =>
      RangesNoMatch(lt, lq, p);
    case Some(i) =>
      var e := i + |lq|;
      RangesMatch(lt, lq, p, i);
      RangesTile(lt, lq, e);
      TilesPrepend(Range(p, i), Range(i, e), Ranges(lt, lq, e), |lt|);
      WithinPrepend(Range(p, i), Range(i, e), Ranges(lt, lq, e), |lt|);
  }

  /** Two ranges that meet, put before ranges that start where they end. */
  lemma TilesPrepend(x: Range, y: Range, rest: seq<Range>, b: nat)
    requires x.hi == y.lo && Tiles(rest, y.hi, b)
    ensures Tiles([x, y] + rest, x.lo, b)
  {
    var r := [x, y] + rest;
    forall k | 0 <= k < |r| - 1 ensures r[k].hi == r[k + 1].lo {
      if k >= 2 {
        assert r[k] == rest[k - 2] && r[k + 1] == rest[k - 1];
      }
    }
  }

  /** Two ranges inside the text, put before ranges inside it. */
  lemma WithinPrepend(x: Range, y: Range, rest: seq<Range>, n: nat)
    requires x.lo <= x.hi <= n && y.lo <= y.hi <= n && Within(rest, n)
    ensures Within([x, y] + rest, n)
  {
    var r := [x, y] + rest;
    forall k | 2 <= k < |r| ensures r[k] == rest[k - 2] { }
  }

  /** There is one more gap than there are matches. */
  lemma {:induction false} RangesOdd(lt: string, lq: string, p: nat)
    requires |lq| > 0 && p <= |lt|
    ensures |Ranges(lt, lq, p)| % 2 == 1
    decreases |lt| - p
  {
    match IndexOf(lt, lq, p)
    case None =>
      RangesNoMatch(lt, lq, p);
    case Some(i) =>
      RangesMatch(lt, lq, p, i);
      RangesOdd(lt, lq, i + |lq|);
  }

  /** A gap, at an even index `2 * k`, holds no start of a match. */
  lemma {:induction false} RangesGap(lt: string, lq: string, p: nat, k: nat, j: int)
    requires |lq| > 0 && p <= |lt|
    requires 2 * k < |Ranges(lt, lq, p)|
    requires Ranges(lt, lq, p)[2 * k].lo <= j < Ranges(lt, lq, p)[2 * k].hi
    ensures !OccursAt(lt, lq, j)
    decreases |lt| - p
  {
    if k == 0 {
      FirstGap(lt, lq, p, j);
    } else {
      var e := GapShift(lt, lq, p, k, j);
      RangesGap(lt, lq, e, k - 1, j);
    }
  }

  /** A later gap of the ranges from `p` is a gap of the ranges from the end of
      the first match. */
  lemma GapShift(lt: string, lq: string, p: nat, k: nat, j: int) returns (e: nat)
    requires |lq| > 0 && p <= |lt| && k > 0
    requires 2 * k < |Ranges(lt, lq, p)|
    requires Ranges(lt, lq, p)[2 * k].lo <= j < Ranges(lt, lq, p)[2 * k].hi
    ensures p < e <= |lt| && 2 * (k - 1) < |Ranges(lt, lq, e)|
    ensures Ranges(lt, lq, e)[2 * (k - 1)].lo <= j < Ranges(lt, lq, e)[2 * (k - 1)].hi
  {
    match IndexOf(lt, lq, p)
    case None =>
      RangesNoMatch(lt, lq, p);
      assert false;
    case Some(i) =>
      e := i + |lq|;
      var n := 2 * (k - 1);
      assert 2 * k == n + 2;
      RangesShift(lt, lq, p, i, n);
  }

  /** The first gap runs up to the first match, or to the end. */
  lemma FirstGap(lt: string, lq: string, p: nat, j: int)
    requires |lq| > 0 && p <= |lt|
    requires Ranges(lt, lq, p)[0].lo <= j < Ranges(lt, lq, p)[0].hi
    ensures !OccursAt(lt, lq, j)
  {
    match IndexOf(lt, lq, p)
    case None =>
      RangesNoMatch(lt, lq, p);
    case Some(i) =>
      RangesMatch(lt, lq, p, i);
  }

  /** A match, at an odd index `2 * k + 1`, is an occurrence of the query, as
      long as the query. */
  lemma {:induction false} RangesHit(lt: string, lq: string, p: nat, k: nat)
    requires |lq| > 0 && p <= |lt|
    requires 2 * k + 1 < |Ranges(lt, lq, p)|
    ensures Ranges(lt, lq, p)[2 * k + 1].hi == Ranges(lt, lq, p)[2 * k + 1].lo + |lq|
    ensures OccursAt(lt, lq, Ranges(lt, lq, p)[2 * k + 1].lo)
    decreases |lt| - p
  {
    assert IndexOf(lt, lq, p).Some?;
    var i := IndexOf(lt, lq, p).value;
    if k == 0 {
      RangesMatch(lt, lq, p, i);
    } else {
      var n := 2 * (k - 1) + 1;
      assert 2 * k + 1 == n + 2;
      RangesShift(lt, lq, p, i, n);
      RangesHit(lt, lq, i + |lq|, k - 1);
    }
  }

  /** Ranges laid end to end cut the text into pieces that join back into it. */
  lemma {:induction false} SlicesConcat(text: string, rs: seq<Range>, a: nat, b: nat)
    requires Tiles(rs, a, b) && Within(rs, |text|)
    ensures a <= b <= |text| && Concat(Slices(text, rs)) == text[a..b]
    decreases |rs|
  {
    var h := rs[0].hi;
    var tail := rs[1..];
    assert Slices(text, rs)[1..] == Slices(text, tail);
    if |rs| == 1 {
      assert Slices(text, tail) == [];
    } else {
      assert rs[1].lo == h;
      TilesTail(rs, a, b, |text|);
      SlicesConcat(text, tail, h, b);
      assert text[a..b] == text[a..h] + text[h..b];
    }
  }

  lemma TilesTail(rs: seq<Range>, a: nat, b: nat, n: nat)
    requires Tiles(rs, a, b) && Within(rs, n) && |rs| > 1
    ensures Tiles(rs[1..], rs[0].hi, b) && Within(rs[1..], n)
  {
    forall k | 0 <= k < |rs| - 2 ensures rs[1..][k].hi == rs[1..][k + 1].lo {
      assert rs[k + 1].hi == rs[k + 2].lo;
    }
  }

  lemma TilesPrefix(rs: seq<Range>, a: nat, b: nat, n: nat, m: nat)
    requires Tiles(rs, a, b) && Within(rs, n) && 0 < m < |rs|
    ensures Tiles(rs[..m], a, rs[m].lo) && Within(rs[..m], n)
  {
    assert rs[m - 1].hi == rs[m].lo;
  }

  /** The pieces before the `m`-th are as long as the text up to its start. */
  lemma SlicesOffset(text: string, rs: seq<Range>, a: nat, b: nat, m: nat)
    requires Tiles(rs, a, b) && Within(rs, |text|) && m < |rs|
    ensures a + |Concat(Slices(text, rs)[..m])| == rs[m].lo
  {
    if m == 0 {
      assert Slices(text, rs)[..0] == [];
    } else {
      var pre := rs[..m];
      TilesPrefix(rs, a, b, |text|, m);
      assert Slices(text, rs)[..m] == Slices(text, pre);
      SlicesConcat(text, pre, a, rs[m].lo);
    }
  }

  /** An empty query leaves the text as it is. */
  lemma HighlightEmptyQuery(text: string)
    ensures HighlightText(text, "") == Unchanged(text)
  {
  }

  /** What the parts hold is the pieces of the split. */
  lemma PartsArePieces(text: string, query: string)
    requires IsLiteral(query) && query != ""
    ensures HighlightText(text, query).Parts?
    ensures var ps := HighlightText(text, query).parts;
            var P := Pieces(text, Lower(text), Lower(query));
            PartTexts(ps) == P
            && forall m :: 0 <= m < |ps| ==> (ps[m].Marked? <==> Lower(P[m]) == Lower(query))
  {
  }

  /** A gap piece never lower-cases to the lower-cased query. */
  lemma GapPiece(text: string, query: string, k: nat)
    requires query != ""
    requires 2 * k < |Pieces(text, Lower(text), Lower(query))|
    ensures Lower(Pieces(text, Lower(text), Lower(query))[2 * k]) != Lower(query)
  {
    var lt, lq := Lower(text), Lower(query);
    var r := Ranges(lt, lq, 0)[2 * k];
    RangesTile(lt, lq, 0);
    if r.lo < r.hi {
      RangesGap(lt, lq, 0, k, r.lo);
    }
    GapSlice(text, lq, r.lo, r.hi);
  }

  /** A stretch of the text at whose start the query does not occur does not
      lower-case to the query. */
  lemma GapSlice(text: string, lq: string, lo: nat, hi: nat)
    requires |lq| > 0 && lo <= hi <= |text|
    requires lo < hi ==> !OccursAt(Lower(text), lq, lo)
    ensures Lower(text[lo..hi]) != lq
  {
    LowerSlice(text, lo, hi);
  }

  /** A match piece lower-cases to the lower-cased query. */
  lemma HitPiece(text: string, query: string, k: nat)
    requires query != ""
    requires 2 * k + 1 < |Pieces(text, Lower(text), Lower(query))|
    ensures Lower(Pieces(text, Lower(text), Lower(query))[2 * k + 1]) == Lower(query)
  {
    var lt, lq := Lower(text), Lower(query);
    var r := Ranges(lt, lq, 0)[2 * k + 1];
    RangesTile(lt, lq, 0);
    LowerSlice(text, r.lo, r.hi);
    RangesHit(lt, lq, 0, k);
  }

  /** A piece lower-cases to the lower-cased query exactly at the odd
      positions. */
  lemma PieceMatches(text: string, query: string, m: nat)
    requires query != ""
    requires m < |Pieces(text, Lower(text), Lower(query))|
    ensures Lower(Pieces(text, Lower(text), Lower(query))[m]) == Lower(query) <==> m % 2 == 1
  {
    var k := m / 2;
    if m % 2 == 1 {
      assert m == 2 * k + 1;
      HitPiece(text, query, k);
    } else {
      assert m == 2 * k;
      GapPiece(text, query, k);
    }
  }

  /** For a non-empty literal query, the parts concatenate back to the text, and
      a part is marked exactly when it is a match, at the odd positions. */
  lemma HighlightSpec(text: string, query: string)
    requires IsLiteral(query) && query != ""
    ensures HighlightText(text, query).Parts?
    ensures Concat(PartTexts(HighlightText(text, query).parts)) == text
    ensures var ps := HighlightText(text, query).parts;
            |ps| % 2 == 1
            && forall m :: 0 <= m < |ps| ==> (ps[m].Marked? <==> m % 2 == 1)
  {
    var lt, lq := Lower(text), Lower(query);
    PartsArePieces(text, query);
    RangesTile(lt, lq, 0);
    RangesOdd(lt, lq, 0);
    SlicesConcat(text, Ranges(lt, lq, 0), 0, |text|);
    var ps := HighlightText(text, query).parts;
    forall m | 0 <= m < |ps| ensures ps[m].Marked? <==> m % 2 == 1 {
      PieceMatches(text, query, m);
    }
  }

  /** The marks fall on the leftmost non-overlapping occurrences: no occurrence
      starts inside an unmarked part, and every marked part is an occurrence at
      its own offset in the text. */
  lemma HighlightLeftmost(text: string, query: string, m: nat)
    requires IsLiteral(query) && query != ""
    requires m < |HighlightText(text, query).parts|
    ensures var ps := HighlightText(text, query).parts;
            var o := |Concat(PartTexts(ps[..m]))|;
            (ps[m].Plain? ==> forall j :: o <= j < o + |ps[m].text| ==> !OccursCi(text, query, j))
            && (ps[m].Marked? ==> OccursCi(text, query, o) && |ps[m].text| == |query|)
  {
    var lt, lq := Lower(text), Lower(query);
    var rs := Ranges(lt, lq, 0);
    var P := Pieces(text, lt, lq);
    var ps := HighlightText(text, query).parts;
    PartsArePieces(text, query);
    PieceMatches(text, query, m);
    assert PartTexts(ps[..m]) == P[..m];
    RangesTile(lt, lq, 0);
    SlicesOffset(text, rs, 0, |text|, m);
    var k := m / 2;
    if m % 2 == 0 {
      assert m == 2 * k;
      forall j | rs[m].lo <= j < rs[m].hi ensures !OccursCi(text, query, j) {
        RangesGap(lt, lq, 0, k, j);
      }
    } else {
      assert m == 2 * k + 1;
      RangesHit(lt, lq, 0, k);
    }
  }

  /** "code" in "My Code Snippet" gives "My ", then "Code" marked, then " Snippet". */
  lemma HighlightExample()
    ensures HighlightText("My Code Snippet", "code")
            == Parts([Plain("My "), Marked("Code"), Plain(" Snippet")])
  {
    ExampleMatches();
    ExamplePieces();
    ExampleParts();
    HighlightOfThree("My Code Snippet", "code", "My ", "Code", " Snippet");
  }

  /** Three pieces make three parts, each marked or not on its own. */
  lemma HighlightOfThree(text: string, query: string, a: string, b: string, c: string)
    requires IsLiteral(query) && query != ""
    requires Pieces(text, Lower(text), Lower(query)) == [a, b, c]
    ensures HighlightText(text, query) == Parts([MarkPart(a, query), MarkPart(b, query), MarkPart(c, query)])
  {
  }

  lemma ExampleParts()
    ensures IsLiteral("code")
    ensures MarkPart("My ", "code") == Plain("My ")
    ensures MarkPart("Code", "code") == Marked("Code")
    ensures MarkPart(" Snippet", "code") == Plain(" Snippet")
  {
    assert Lower("My ")[0] != 'c';
    assert Lower("Code") == "code";
    assert Lower(" Snippet")[0] != 'c';
  }

  lemma ExamplePieces()
    ensures Pieces("My Code Snippet", "my code snippet", "code") == ["My ", "Code", " Snippet"]
  {
    var t := "My Code Snippet";
    ExampleRanges();
    var P := Pieces(t, "my code snippet", "code");
    assert P[0] == t[0..3] == "My ";
    assert P[1] == t[3..7] == "Code";
    assert P[2] == t[7..15] == " Snippet";
  }

  /** The split of the lower-cased title: a gap, the match at 3, the rest. */
  lemma ExampleRanges()
    ensures Ranges("my code snippet", "code", 0) == [Range(0, 3), Range(3, 7), Range(7, 15)]
  {
    ExampleMatches();
    RangesMatch("my code snippet", "code", 0, 3);
    RangesNoMatch("my code snippet", "code", 7);
  }

  /** The lower-cased title holds "code" at 3 and nowhere else. */
  lemma ExampleMatches()
    ensures Lower("My Code Snippet") == "my code snippet" && Lower("code") == "code"
    ensures IndexOf("my code snippet", "code", 0) == Some(3)
    ensures IndexOf("my code snippet", "code", 7) == None
  {
    var lt, q := "my code snippet", "code";
    assert Lower("My Code Snippet") == lt;
    assert Lower(q) == q;
    forall j | 0 <= j < 12 && j != 3 ensures !OccursAt(lt, q, j) {
      assert lt[j] != q[0];
      assert lt[j..j + 4][0] == lt[j];
    }
    assert OccursAt(lt, q, 3);
    assert IndexOf(lt, q, 0) == Some(3);
    assert IndexOf(lt, q, 7) == None;
  }

  // ---------------------------------------------------------------------------
  // Display arithmetic

  datatype Results = Results(categories: seq<Category>, codes: seq<Code>)

  const NoResults := Results([], [])

  function TotalResults(r: Results): (n: nat)
    ensures n == 0 <==> r == NoResults
  {
    |r.categories| + |r.codes|
  }

  /** "result", with the plural "s" for every count but one. */
  function ResultLabel(total: nat): (word: string)
    ensures word == "result" || word == "results"
    ensures word == "results" <==> total != 1
    ensures word == "result" <==> total == 1
  {
    "result" + (if total != 1 then "s" else "")
  }

  const PreviewLength := 100

  /** The first 100 characters of a body, and "..." when there were more. */
  function Preview(body: string): (r: string)
    ensures |r| <= PreviewLength + 3
    ensures |body| <= PreviewLength ==> r == body
    ensures |body| > PreviewLength ==> |r| == PreviewLength + 3 && r[..PreviewLength] == body[..PreviewLength] && r[PreviewLength..] == "..."
  {
    (if |body| <= PreviewLength then body else body[..PreviewLength])
    + (if |body| > PreviewLength then "..." else "")
  }

  // ---------------------------------------------------------------------------
  // The component's state

  const DebounceMs := 300
  const MinQueryLength := 2
  const SearchFailed := "Failed to search. Please try again."

  /** The two fetches `Promise.all` issues for one search. */
  const SearchRequests := [Get("/categories"), Get("/all-codes")]

  /** The timer the query effect schedules, with the query its callback sees. */
  datatype Pending = Pending(query: string, due: nat)

  /** Whether `performSearch` goes past its length gate. */
  predicate Dispatches(query: string) {
    |Trim(query)| >= MinQueryLength
  }

  /** What the dropdown under the box shows. */
  datatype Panel = Hidden | Spinner | NothingFound(query: string) | Found(total: nat, word: string)

  class SearchEngine {
    var searchQuery: string
    var results: Results
    var isSearching: bool
    var hasSearched: bool
    /** The one timer the latest query effect left scheduled, if any. */
    var timer: Option<Pending>
    /** The queries of dispatched searches whose fetches have not settled, in
        dispatch order; nothing ties a settling fetch to the latest query. */
    var inFlight: seq<string>
    /** Milliseconds since the component mounted. */
    var now: nat
    var requests: seq<Request>
    var toasts: seq<Toast>

    /** At most one search is pending, it was scheduled for the current query,
        which is not blank, and it fires within the debounce window. */
    ghost predicate Valid()
      reads this
    {
      timer.Some? ==>
        timer.value.query == searchQuery && Trim(searchQuery) != ""
        && now < timer.value.due <= now + DebounceMs
    }

    constructor ()
      ensures Valid()
      ensures searchQuery == "" && results == NoResults && !isSearching && !hasSearched
      ensures timer == None && inFlight == [] && now == 0 && requests == [] && toasts == []
    {
      searchQuery, results, isSearching, hasSearched := "", NoResults, false, false;
      timer, inFlight, now, requests, toasts := None, [], 0, [], [];
    }

    function View(): (v: Panel)
      reads this
      ensures v == Hidden <==> !hasSearched && !isSearching
      ensures v.Found? ==> v.total == TotalResults(results) && v.total > 0
    {
      if !hasSearched && !isSearching then Hidden
      else if isSearching then Spinner
      else if TotalResults(results) == 0 then NothingFound(searchQuery)
      else Found(TotalResults(results), ResultLabel(TotalResults(results)))
    }

    /** Typing: the query changes and the effect re-runs. Its cleanup cancels
        the timer of the previous query; a blank query clears the results at
        once, any other schedules the search 300 ms later. */
    method SetQuery(q: string)
      requires Valid()
      modifies this
      ensures Valid()
      ensures searchQuery == q
      ensures q == old(searchQuery) ==> timer == old(timer) && results == old(results) && hasSearched == old(hasSearched)
      ensures q != old(searchQuery) && Trim(q) == "" ==> timer == None && results == NoResults && !hasSearched
      ensures q != old(searchQuery) && Trim(q) != "" ==>
                timer == Some(Pending(q, now + DebounceMs)) && results == old(results) && hasSearched == old(hasSearched)
      ensures isSearching == old(isSearching) && inFlight == old(inFlight) && now == old(now)
      ensures requests == old(requests) && toasts == old(toasts)
    {
      if q != searchQuery {
        searchQuery := q;
        timer := None;
        if Trim(q) == "" {
          results := NoResults;
          hasSearched := false;
        } else {
          timer := Some(Pending(q, now + DebounceMs));
        }
      }
    }

    /** `performSearch` as the timer callback runs it, with the query it saw. */
    method PerformSearch(query: string)
      modifies this
      ensures Dispatches(query) ==>
                isSearching && hasSearched && inFlight == old(inFlight) + [query]
                && requests == old(requests) + SearchRequests
      ensures !Dispatches(query) ==>
                isSearching == old(isSearching) && hasSearched == old(hasSearched)
                && inFlight == old(inFlight) && requests == old(requests)
      ensures searchQuery == old(searchQuery) && results == old(results) && timer == old(timer)
      ensures now == old(now) && toasts == old(toasts)
    {
      if !Dispatches(query) {
        return;
      }
      isSearching := true;
      hasSearched := true;
      requests := requests + SearchRequests;
      inFlight := inFlight + [query];
    }

    /** Time passes; a timer that has come due fires and runs the search with
        the most recent query. */
    method Tick(dt: nat)
      requires Valid()
      modifies this
      ensures Valid()
      ensures now == old(now) + dt
      ensures var fires := old(timer).Some? && old(timer).value.due <= now;
              (fires ==> timer == None
                         && (Dispatches(old(searchQuery)) ==>
                               isSearching && hasSearched && inFlight == old(inFlight) + [old(searchQuery)]
                               && requests == old(requests) + SearchRequests)
                         && (!Dispatches(old(searchQuery)) ==>
                               isSearching == old(isSearching) && hasSearched == old(hasSearched)
                               && inFlight == old(inFlight) && requests == old(requests)))
              && (!fires ==> timer == old(timer) && isSearching == old(isSearching)
                             && hasSearched == old(hasSearched) && inFlight == old(inFlight)
                             && requests == old(requests))
      ensures searchQuery == old(searchQuery) && results == old(results) && toasts == old(toasts)
    {
      now := now + dt;
      if timer.Some? && timer.value.due <= now {
        var q := timer.value.query;
        timer := None;
        PerformSearch(q);
      }
    }

    /** The fetches of the `k`-th unsettled search settle. Both must succeed
        for the results to be replaced, both lists together, filtered by the
        query that search captured; otherwise one error toast is raised and the
        results stay. Either way `isSearching` ends false. */
    method Settle(k: nat, cats: Outcome<seq<Category>>, codes: Outcome<seq<Code>>)
      requires Valid()
      requires k < |inFlight|
      modifies this
      ensures Valid()
      ensures cats.Ok? && codes.Ok? ==>
                results == Results(FilterCategories(cats.data, old(inFlight[k])),
                                   FilterCodes(codes.data, old(inFlight[k])))
                && toasts == old(toasts)
      ensures !(cats.Ok? && codes.Ok?) ==>
                results == old(results) && toasts == old(toasts) + [ErrorToast(SearchFailed)]
      ensures !isSearching
      ensures inFlight == old(inFlight[..k] + inFlight[k + 1..])
      ensures searchQuery == old(searchQuery) && hasSearched == old(hasSearched)
      ensures timer == old(timer) && now == old(now) && requests == old(requests)
    {
      var query := inFlight[k];
      if cats.Ok? && codes.Ok? {
        results := Results(FilterCategories(cats.data, query), FilterCodes(codes.data, query));
      } else {
        toasts := toasts + [ErrorToast(SearchFailed)];
      }
      isSearching := false;
      inFlight := inFlight[..k] + inFlight[k + 1..];
    }

    /** The clear button: the query becomes empty, which also cancels a pending
        timer, and the results and the searched flag are reset. Fetches already
        in flight are not cancelled. */
    method ClearSearch()
      requires Valid()
      modifies this
      ensures Valid()
      ensures searchQuery == "" && results == NoResults && !hasSearched && timer == None
      ensures isSearching == old(isSearching) && inFlight == old(inFlight) && now == old(now)
      ensures requests == old(requests) && toasts == old(toasts)
    {
      results := NoResults;
      hasSearched := false;
      SetQuery("");
    }
  }

  // ---------------------------------------------------------------------------
  // Scenarios

  lemma TrimOfWord(s: string)
    requires |s| > 0 && !IsWhitespace(s[0]) && !IsWhitespace(s[|s| - 1])
    ensures Trim(s) == s
  {
    assert TrimStartIndex(s) == 0;
    assert TrimEndIndex(s, 0) == |s|;
    assert s[0..|s|] == s;
  }

  /** Typing "reac" and then "react" within 300 ms dispatches one search, for
      "react" only, and issues one pair of fetches. */
  method DebounceScenario() returns (dispatched: seq<string>, sent: seq<Request>)
    ensures dispatched == ["react"]
    ensures sent == SearchRequests
  {
    TrimOfWord("reac");
    TrimOfWord("react");
    var e := new SearchEngine();
    e.SetQuery("reac");
    e.Tick(200);
    e.SetQuery("react");
    e.Tick(299);
    assert e.inFlight == [];
    e.Tick(1);
    dispatched, sent := e.inFlight, e.requests;
  }

  /** A one-character query fetches nothing and keeps the earlier results. */
  method ShortQueryScenario(earlier: seq<Category>) returns (sent: seq<Request>, shown: Results)
    ensures sent == SearchRequests
    ensures shown == Results(FilterCategories(earlier, "ab"), [])
  {
    TrimOfWord("ab");
    TrimOfWord("a");
    var e := new SearchEngine();
    e.SetQuery("ab");
    e.Tick(300);
    e.Settle(0, Ok(earlier), Ok([]));
    e.SetQuery("a");
    e.Tick(300);
    sent, shown := e.requests, e.results;
  }

  /** Without a request identifier, the search that settles last wins: when the
      search for "ab" settles after the later one for "abc", its results stay. */
  method StaleResponseScenario(cats: seq<Category>) returns (shown: Results, latestQuery: string)
    ensures latestQuery == "abc"
    ensures shown == Results(FilterCategories(cats, "ab"), [])
  {
    TrimOfWord("ab");
    TrimOfWord("abc");
    var e := new SearchEngine();
    e.SetQuery("ab");
    e.Tick(300);
    e.SetQuery("abc");
    e.Tick(300);
    assert e.inFlight == ["ab", "abc"];
    e.Settle(1, Ok(cats), Ok([]));
    e.Settle(0, Ok(cats), Ok([]));
    shown, latestQuery := e.results, e.searchQuery;
  }
}
