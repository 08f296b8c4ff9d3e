/** The image-address pattern of the new-category form,
    `/(https?:\/\/[^\s]+\.(?:jpg|jpeg|png|gif|webp|svg))/gi`, and what its
    `test` does. Matching at one start position follows the backtracking
    order of section 22.2.2 of ECMA-262: the optional `s` is tried first, the
    run of non-whitespace characters is taken greedily and given back one
    character at a time, and the extensions are tried in the order written.
    The `g` flag makes `test` start at `lastIndex` and update it, as
    RegExpBuiltinExec (section 22.2.7.2 of ECMA-262) says. */
module ImagePattern {
  import opened Wrappers
  import opened Text

  /** `w`, written in lower case, occurs at `i` ignoring ASCII case (the `i` flag). */
  predicate CiAt(s: string, w: string, i: nat) {
    i + |w| <= |s| && Lower(s[i..i + |w|]) == w
  }

  /** `https?:\/\/` at `p`: the index after it. */
  function SchemeEnd(s: string, p: nat): (a: Option<nat>)
    ensures a.Some? <==> CiAt(s, "https://", p) || CiAt(s, "http://", p)
    ensures a.Some? ==> a.value <= |s|
    ensures CiAt(s, "https://", p) ==> a == Some(p + 8)
    ensures !CiAt(s, "https://", p) && CiAt(s, "http://", p) ==> a == Some(p + 7)
  {
    if CiAt(s, "https://", p) then Some(p + 8)
    else if CiAt(s, "http://", p) then Some(p + 7)
    else None
  }

  const Extensions: seq<string> := ["jpg", "jpeg", "png", "gif", "webp", "svg"]

  /** One of the extensions, of length `n`, occurs at `i`. */
  predicate ExtensionAt(s: string, i: nat, n: nat) {
    exists k :: 0 <= k < |Extensions| && |Extensions[k]| == n && CiAt(s, Extensions[k], i)
  }

  /** The alternation `(?:jpg|jpeg|png|gif|webp|svg)` at `i`: the length of the
      first alternative that matches. */
  function ExtensionLength(s: string, i: nat): (n: Option<nat>)
    ensures n.Some? ==> ExtensionAt(s, i, n.value) && i + n.value <= |s|
    ensures n.None? ==> forall m :: !ExtensionAt(s, i, m)
  {
    if CiAt(s, Extensions[0], i) then Some(3)
    else if CiAt(s, Extensions[1], i) then Some(4)
    else if CiAt(s, Extensions[2], i) then Some(3)
    else if CiAt(s, Extensions[3], i) then Some(3)
    else if CiAt(s, Extensions[4], i) then Some(4)
    else if CiAt(s, Extensions[5], i) then Some(3)
    else None
  }

  /** Where the greedy `[^\s]+` starting at `a` stops: the first whitespace
      character at or after `a`, or the end. */
  function RunEnd(s: string, a: nat): (r: nat)
    requires a <= |s|
    ensures a <= r <= |s|
    ensures forall k :: a <= k < r ==> !IsWhitespace(s[k])
    ensures r < |s| ==> IsWhitespace(s[r])
    decreases |s| - a
  {
    if a == |s| || IsWhitespace(s[a]) then a else RunEnd(s, a + 1)
  }

  /** `\.` followed by an extension right after the run `s[a..d]`, trying the
      longest run first: the end of the match. */
  function Backtrack(s: string, a: nat, d: nat): (e: Option<nat>)
    decreases d
  {
    if d <= a then None
    else if d < |s| && s[d] == '.' && ExtensionLength(s, d + 1).Some? then
      Some(d + 1 + ExtensionLength(s, d + 1).value)
    else Backtrack(s, a, d - 1)
  }

  /** The whole pattern at start position `p`: the end of the match. */
  function MatchAt(s: string, p: nat): Option<nat> {
    match SchemeEnd(s, p)
    case None => None
    case Some(a) => Backtrack(s, a, RunEnd(s, a))
  }

  /** What a match from `p` to `e` with the dot at `d` looks like: the scheme,
      at least one non-whitespace character, the dot, and an extension. */
  predicate ShapeAt(s: string, p: nat, d: nat, e: nat) {
    SchemeEnd(s, p).Some?
    && SchemeEnd(s, p).value < d < |s|
    && (forall k :: SchemeEnd(s, p).value <= k < d ==> !IsWhitespace(s[k]))
    && s[d] == '.' && e > d + 1 && ExtensionAt(s, d + 1, e - d - 1)
  }

  /** The text holds an image address somewhere. */
  ghost predicate HasImageAddress(s: string) {
    exists p, d, e :: ShapeAt(s, p, d, e)
  }

  // ---------------------------------------------------------------------------
  // Matching at one position: sound, complete, and the last dot wins

  /** A match found by backtracking has its dot `d'` inside the run. */
  lemma {:induction false} BacktrackSound(s: string, a: nat, d: nat) returns (d': nat)
    requires Backtrack(s, a, d).Some?
    ensures a < d' <= d && d' < |s| && s[d'] == '.'
    ensures Backtrack(s, a, d).value > d' + 1
    ensures ExtensionAt(s, d' + 1, Backtrack(s, a, d).value - d' - 1)
    decreases d
  {
    if d < |s| && s[d] == '.' && ExtensionLength(s, d + 1).Some? {
      d' := d;
    } else {
      d' := BacktrackSound(s, a, d - 1);
    }
  }

  /** Every dot followed by an extension within reach is found, and the one
      taken is the last such dot. */
  lemma {:induction false} BacktrackComplete(s: string, a: nat, d: nat, d': nat, n: nat)
    requires a < d' <= d && d' < |s| && s[d'] == '.' && ExtensionAt(s, d' + 1, n)
    ensures Backtrack(s, a, d).Some? && Backtrack(s, a, d).value >= d' + 2
    decreases d
  {
    if d > d' && !(d < |s| && s[d] == '.' && ExtensionLength(s, d + 1).Some?) {
      BacktrackComplete(s, a, d - 1, d', n);
    }
  }

  /** The pattern matches at `p` exactly when a match of the right shape
      starts there. */
  lemma MatchAtIff(s: string, p: nat)
    ensures MatchAt(s, p).Some? ==> exists d :: ShapeAt(s, p, d, MatchAt(s, p).value)
    ensures (exists d, e :: ShapeAt(s, p, d, e)) ==> MatchAt(s, p).Some?
  {
    if MatchAt(s, p).Some? {
      var a := SchemeEnd(s, p).value;
      var d := BacktrackSound(s, a, RunEnd(s, a));
      assert ShapeAt(s, p, d, MatchAt(s, p).value);
    }
    if d, e :| ShapeAt(s, p, d, e) {
      var a := SchemeEnd(s, p).value;
      var r := RunEnd(s, a);
      assert d <= r;
      BacktrackComplete(s, a, r, d, e - d - 1);
    }
  }

  // ---------------------------------------------------------------------------
  // `test` on the global pattern

  /** The end of the match at the first start position at or after `from`. */
  function FirstMatch(s: string, from: nat): Option<nat>
    decreases |s| + 1 - from
  {
    if from > |s| then None
    else match MatchAt(s, from)
      case Some(e) => Some(e)
      case None => FirstMatch(s, from + 1)
  }

  datatype ExecResult = ExecResult(matched: bool, lastIndex: nat)

  /** `test` with the pattern's `lastIndex`: past the end it fails and resets;
      otherwise it searches from `lastIndex`, and a match moves `lastIndex` to
      the match's end while a failure resets it to 0. */
  function Exec(s: string, lastIndex: nat): ExecResult {
    if lastIndex > |s| then ExecResult(false, 0)
    else match FirstMatch(s, lastIndex)
      case Some(e) => ExecResult(true, e)
      case None => ExecResult(false, 0)
  }

  lemma {:induction false} FirstMatchIff(s: string, from: nat)
    ensures FirstMatch(s, from).Some? <==> exists p, d, e :: from <= p && ShapeAt(s, p, d, e)
    decreases |s| + 1 - from
  {
    if from <= |s| {
      MatchAtIff(s, from);
      FirstMatchIff(s, from + 1);
      if p, d, e :| from <= p && ShapeAt(s, p, d, e) {
        if p == from {
          assert MatchAt(s, from).Some?;
        } else {
          assert from + 1 <= p;
        }
      }
    }
  }

  /** The match the scan finds ends an address that starts at or after
      `from`. */
  lemma {:induction false} FirstMatchShape(s: string, from: nat)
    requires FirstMatch(s, from).Some?
    ensures exists p, d :: from <= p && ShapeAt(s, p, d, FirstMatch(s, from).value)
    decreases |s| + 1 - from
  {
    if MatchAt(s, from).Some? {
      MatchAtIff(s, from);
    } else {
      FirstMatchShape(s, from + 1);
    }
  }

  /** `test` succeeds exactly when an address starts at or after `lastIndex`;
      from 0 that is exactly when the text holds one. On success `lastIndex`
      becomes the end of an address starting at or after where the search
      started, so it moves past that point; on failure it is reset to 0. */
  lemma ExecSpec(s: string, lastIndex: nat)
    ensures Exec(s, lastIndex).matched <==> exists p, d, e :: lastIndex <= p && ShapeAt(s, p, d, e)
    ensures Exec(s, 0).matched <==> HasImageAddress(s)
    ensures Exec(s, lastIndex).matched ==>
              exists p, d :: lastIndex <= p && ShapeAt(s, p, d, Exec(s, lastIndex).lastIndex)
    ensures Exec(s, lastIndex).matched ==> Exec(s, lastIndex).lastIndex > lastIndex
    ensures !Exec(s, lastIndex).matched ==> Exec(s, lastIndex).lastIndex == 0
  {
    FirstMatchIff(s, lastIndex);
    FirstMatchIff(s, 0);
    if Exec(s, lastIndex).matched {
      FirstMatchShape(s, lastIndex);
    }
  }

  /** `test` from the end of the text always fails. */
  lemma ExecAtEnd(s: string)
    ensures Exec(s, |s|) == ExecResult(false, 0)
  {
    assert FirstMatch(s, |s| + 1) == None;
    assert MatchAt(s, |s|) == None;
  }

  /** A text that is one address, end to end, fails a second `test` on the
      same pattern object: the first leaves `lastIndex` at the end. */
  lemma {:induction false} SecondTestFails(s: string)
    requires Exec(s, 0) == ExecResult(true, |s|)
    ensures Exec(s, Exec(s, 0).lastIndex) == ExecResult(false, 0)
  {
    ExecAtEnd(s);
  }

  /** "http://a.png" is such a text. */
  lemma ShortAddress()
    ensures Exec("http://a.png", 0) == ExecResult(true, 12)
    ensures HasImageAddress("http://a.png")
  {
    var s := "http://a.png";
    SchemeOfShort();
    RunOfShort();
    ExtensionOfShort();
    assert s[8] == '.' && s[9] != '.' && s[10] != '.' && s[11] != '.';
    assert Backtrack(s, 7, 8) == Some(12);
    assert Backtrack(s, 7, 9) == Some(12);
    assert Backtrack(s, 7, 10) == Some(12);
    assert Backtrack(s, 7, 11) == Some(12);
    assert Backtrack(s, 7, 12) == Some(12);
    assert MatchAt(s, 0) == Some(12);
    assert FirstMatch(s, 0) == Some(12);
    ExecSpec(s, 0);
  }

  lemma SchemeOfShort()
    ensures SchemeEnd("http://a.png", 0) == Some(7)
  {
    var s := "http://a.png";
    assert s[4] == ':';
    assert Lower(s[0..8])[4] == ':';
    assert Lower(s[0..7]) == "http://";
  }

  lemma RunOfShort()
    ensures RunEnd("http://a.png", 7) == 12
  {
    var s := "http://a.png";
    assert !IsWhitespace(s[7]) && !IsWhitespace(s[8]) && !IsWhitespace(s[9]);
    assert !IsWhitespace(s[10]) && !IsWhitespace(s[11]);
    assert RunEnd(s, 11) == 12;
    assert RunEnd(s, 10) == 12;
    assert RunEnd(s, 9) == 12;
    assert RunEnd(s, 8) == 12;
  }

  lemma ExtensionOfShort()
    ensures ExtensionLength("http://a.png", 9) == Some(3)
    ensures ExtensionLength("http://a.png", 12) == None
    ensures ExtensionLength("http://a.png", 11) == None
    ensures ExtensionLength("http://a.png", 10) == None
  {
    var s := "http://a.png";
    assert Lower(s[9..12]) == "png";
    assert Lower(s[9..12])[0] != 'j';
    assert Lower(s[10..12])[0] != 'j' && Lower(s[11..12])[0] != 'j';
  }

  // ---------------------------------------------------------------------------
  // The pattern object

  /** A `RegExp` object for the pattern with the `g` flag: it carries
      `lastIndex` from one `test` to the next. */
  class ImageRegex {
    var lastIndex: nat

    constructor ()
      ensures lastIndex == 0
    {
      lastIndex := 0;
    }

    /** `test`: tries the start positions from `lastIndex` on, in order. */
    method Test(s: string) returns (matched: bool)
      modifies this
      ensures ExecResult(matched, lastIndex) == Exec(s, old(lastIndex))
    {
      if lastIndex > |s| {
        lastIndex := 0;
        return false;
      }
      var p := lastIndex;
      while p <= |s|
        invariant old(lastIndex) <= p <= |s| + 1
        invariant lastIndex == old(lastIndex)
        invariant FirstMatch(s, p) == FirstMatch(s, old(lastIndex))
        decreases |s| + 1 - p
      {
        var m := MatchAt(s, p);
        if m.Some? {
          lastIndex := m.value;
          return true;
        }
        p := p + 1;
      }
      lastIndex := 0;
      return false;
    }
  }
}
