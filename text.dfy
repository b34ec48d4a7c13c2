/** The two string operations the inventory relies on: Swift's `lowercased()`
    and Foundation's `localizedCaseInsensitiveContains`. Case folding is
    modelled on ASCII letters only; every other character folds to itself. */
module Text {

  function LowerChar(c: char): (d: char)
    ensures 'A' <= c <= 'Z' ==> 'a' <= d <= 'z' && d as int - c as int == 32
    ensures !('A' <= c <= 'Z') ==> d == c
  {
    if 'A' <= c <= 'Z' then (c as int + 32) as char else c
  }

  /** `s.lowercased()`. */
  function Lower(s: string): (r: string)
    ensures |r| == |s|
    ensures forall i :: 0 <= i < |s| ==> r[i] == LowerChar(s[i])
  {
    seq(|s|, i requires 0 <= i < |s| => LowerChar(s[i]))
  }

  /** Lowercasing a lowercased string changes nothing. */
  lemma LowerIdempotent(s: string)
    ensures Lower(Lower(s)) == Lower(s)
  {
    assert forall i :: 0 <= i < |s| ==> Lower(Lower(s))[i] == Lower(s)[i];
  }

  /** `needle` occurs in `hay` as a contiguous run of characters. */
  predicate IsInfix(needle: string, hay: string)
    decreases |hay|
  {
    needle <= hay || (hay != [] && IsInfix(needle, hay[1..]))
  }

  /** `hay.localizedCaseInsensitiveContains(needle)`. Foundation looks the
      needle up with `range(of:options:.caseInsensitive)`, which finds no
      range for an empty needle, so an empty needle is never contained. */
  function ContainsIgnoringCase(hay: string, needle: string): (b: bool)
    ensures b <==> needle != [] && exists i :: OccursAt(Lower(needle), Lower(hay), i)
  {
    IsInfixAt(Lower(needle), Lower(hay));
    needle != [] && IsInfix(Lower(needle), Lower(hay))
  }

  /** `needle` is the window of `hay` that starts at index `i`. */
  predicate OccursAt(needle: string, hay: string, i: int)
  {
    0 <= i && i + |needle| <= |hay| && hay[i..i + |needle|] == needle
  }

  /** The infix test agrees with "some window of `hay` equals `needle`". */
  lemma {:induction false} IsInfixAt(needle: string, hay: string)
    ensures IsInfix(needle, hay) <==> exists i :: OccursAt(needle, hay, i)
    decreases |hay|
  {
    if hay != [] {
      IsInfixAt(needle, hay[1..]);
      if IsInfix(needle, hay[1..]) {
        var i :| OccursAt(needle, hay[1..], i);
        assert hay[i + 1..i + 1 + |needle|] == hay[1..][i..i + |needle|];
        assert OccursAt(needle, hay, i + 1);
      }
      if needle <= hay {
        assert OccursAt(needle, hay, 0);
      }
      if exists i :: OccursAt(needle, hay, i) {
        var i :| OccursAt(needle, hay, i);
        if i > 0 {
          assert hay[1..][i - 1..i - 1 + |needle|] == hay[i..i + |needle|];
          assert OccursAt(needle, hay[1..], i - 1);
        } else {
          assert needle <= hay;
        }
      }
    } else {
      if needle <= hay {
        assert OccursAt(needle, hay, 0);
      }
      if exists i :: OccursAt(needle, hay, i) {
        var i :| OccursAt(needle, hay, i);
        assert needle == [];
      }
    }
  }

  /** Matching ignores the case of the needle: "apple" finds "Apple". */
  lemma QueryCaseIrrelevant(hay: string, needle: string)
    ensures ContainsIgnoringCase(hay, needle) == ContainsIgnoringCase(hay, Lower(needle))
  {
    LowerIdempotent(needle);
  }

  /** Matching ignores the case of the searched text too. */
  lemma TextCaseIrrelevant(hay: string, needle: string)
    ensures ContainsIgnoringCase(hay, needle) == ContainsIgnoringCase(Lower(hay), needle)
  {
    LowerIdempotent(hay);
  }

  /** A non-empty name contains itself, whatever its case. */
  lemma {:induction false} ContainsItself(s: string)
    requires s != []
    ensures ContainsIgnoringCase(s, s)
  {
  }
}
