/**
 * Canvas identifiers: the ordered list `canvas1..canvasN` that the page builds, and the
 * pairing of each visible canvas id with the id of its hidden offscreen twin.
 */
module Ids {

  type CanvasId = string

  /** True when no identifier occurs twice in `ids`. */
  predicate Unique(ids: seq<CanvasId>)
  {
    forall i, j :: 0 <= i < j < |ids| ==> ids[i] != ids[j]
  }

  function DigitChar(d: nat): (c: char)
    requires d < 10
    ensures '0' <= c <= '9'
  {
    ('0' as int + d) as char
  }

  /** Decimal rendering of a natural number, as a template literal prints it. */
  function NatToString(n: nat): (s: string)
    ensures |s| >= 1
    ensures n >= 10 ==> |s| >= 2
    decreases n
  {
    if n < 10 then [DigitChar(n)] else NatToString(n / 10) + [DigitChar(n % 10)]
  }

  /** Different numbers print differently, so `canvas1..canvasN` has no repeated id. */
  lemma {:induction false} NatToStringInjective(a: nat, b: nat)
    requires NatToString(a) == NatToString(b)
    ensures a == b
    decreases a
  {
    if a >= 10 && b >= 10 {
      var sa, sb := NatToString(a / 10), NatToString(b / 10);
      assert NatToString(a) == sa + [DigitChar(a % 10)];
      assert NatToString(b) == sb + [DigitChar(b % 10)];
      assert |sa| == |sb|;
      assert sa == NatToString(a)[..|sa|] == NatToString(b)[..|sb|] == sb;
      assert DigitChar(a % 10) == NatToString(a)[|sa|] == NatToString(b)[|sb|] == DigitChar(b % 10);
      NatToStringInjective(a / 10, b / 10);
    } else if a < 10 && b < 10 {
      assert DigitChar(a) == NatToString(a)[0] == NatToString(b)[0] == DigitChar(b);
    }
  }

  /** The visible canvas id `canvas<k>` (script.js builds ids from k = 1). */
  function NumberedId(k: nat): CanvasId
  {
    "canvas" + NatToString(k)
  }

  /** The ordered target list `canvas1, ..., canvasN`. */
  function CanvasIds(n: nat): seq<CanvasId>
  {
    seq(n, i requires 0 <= i < n => NumberedId(i + 1))
  }

  lemma CanvasIdsUnique(n: nat)
    ensures Unique(CanvasIds(n))
  {
    var ids := CanvasIds(n);
    forall i, j | 0 <= i < j < n
      ensures ids[i] != ids[j]
    {
      if ids[i] == ids[j] {
        assert NatToString(i + 1) == ids[i][6..] == ids[j][6..] == NatToString(j + 1);
        NatToStringInjective(i + 1, j + 1);
      }
    }
  }

  /** `pat` occurs in `s` starting at index `i`. */
  predicate OccursAt(s: string, pat: string, i: nat)
  {
    i + |pat| <= |s| && s[i..i + |pat|] == pat
  }

  /**
   * `s.replace(pat, '')` with a string pattern: only the FIRST occurrence of `pat` is removed;
   * without an occurrence the string is returned unchanged (RemoveFirstAbsent, RemoveFirstAt).
   */
  function RemoveFirst(s: string, pat: string): (r: string)
    ensures |r| <= |s|
    decreases |s|
  {
    if |s| < |pat| then s
    else if s[..|pat|] == pat then s[|pat|..]
    else [s[0]] + RemoveFirst(s[1..], pat)
  }

  lemma OccursShift(s: string, pat: string, i: nat)
    requires |s| > 0
    ensures OccursAt(s, pat, i + 1) <==> OccursAt(s[1..], pat, i)
  {
    if i + 1 + |pat| <= |s| {
      assert s[i + 1..i + 1 + |pat|] == s[1..][i..i + |pat|];
    }
  }

  /** Without an occurrence of the pattern nothing is removed. */
  lemma {:induction false} RemoveFirstAbsent(s: string, pat: string)
    requires forall i: nat :: !OccursAt(s, pat, i)
    ensures RemoveFirst(s, pat) == s
    decreases |s|
  {
    if |s| >= |pat| {
      assert !OccursAt(s, pat, 0);
      assert RemoveFirst(s, pat) == [s[0]] + RemoveFirst(s[1..], pat);
      forall i: nat ensures !OccursAt(s[1..], pat, i) {
        OccursShift(s, pat, i);
      }
      RemoveFirstAbsent(s[1..], pat);
      assert [s[0]] + s[1..] == s;
    }
  }

  /** Exactly the first occurrence of the pattern is cut out; the rest of the string is kept. */
  lemma {:induction false} RemoveFirstAt(s: string, pat: string, i: nat)
    requires OccursAt(s, pat, i)
    requires forall j: nat :: j < i ==> !OccursAt(s, pat, j)
    ensures RemoveFirst(s, pat) == s[..i] + s[i + |pat|..]
    decreases |s|
  {
    if i > 0 {
      assert !OccursAt(s, pat, 0);
      assert RemoveFirst(s, pat) == [s[0]] + RemoveFirst(s[1..], pat);
      OccursShift(s, pat, i - 1);
      forall j: nat | j < i - 1 ensures !OccursAt(s[1..], pat, j) {
        OccursShift(s, pat, j);
      }
      RemoveFirstAt(s[1..], pat, i - 1);
      assert s[..i] == [s[0]] + s[1..][..i - 1];
      assert s[i + |pat|..] == s[1..][i - 1 + |pat|..];
    }
  }

  /** Line 83-84 of offscreen.js: the hidden twin of `id` is "offscreenCanvas" + id minus its first "canvas". */
  function OffscreenId(id: CanvasId): CanvasId
  {
    "offscreenCanvas" + RemoveFirst(id, "canvas")
  }

  /** `canvasK` pairs with `offscreenCanvasK`, the id the page gives the hidden twin. */
  lemma OffscreenIdOfCanvasId(k: nat)
    ensures OffscreenId(NumberedId(k)) == "offscreenCanvas" + NatToString(k)
  {
  }

  /** Different canvases of the list have different hidden twins. */
  lemma NumberedTwinsDistinct(a: nat, b: nat)
    requires a != b
    ensures OffscreenId(NumberedId(a)) != OffscreenId(NumberedId(b))
  {
    OffscreenIdOfCanvasId(a);
    OffscreenIdOfCanvasId(b);
    var prefix := "offscreenCanvas";
    if OffscreenId(NumberedId(a)) == OffscreenId(NumberedId(b)) {
      assert NatToString(a) == (prefix + NatToString(a))[|prefix|..] == (prefix + NatToString(b))[|prefix|..] == NatToString(b);
      NatToStringInjective(a, b);
    }
  }
}
