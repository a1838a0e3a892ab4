/**
 * The Java string operations the plugin relies on, over ASCII:
 * `toLowerCase`, `equalsIgnoreCase`, `replaceAll(" ", "")` and `split(",")`.
 */
module Text {

  import opened Wrappers

  /** Java's `Character.toLowerCase`, restricted to ASCII letters. */
  function LowerChar(c: char): (r: char)
    ensures 'A' <= c <= 'Z' ==> r as int == c as int + 32
    ensures !('A' <= c <= 'Z') ==> r == c
  {
    if 'A' <= c <= 'Z' then (c as int + 32) as char else c
  }

  /** `String.toLowerCase` (ASCII). */
  function Lower(s: string): (r: string)
    ensures |r| == |s|
    ensures forall i :: 0 <= i < |s| ==> r[i] == LowerChar(s[i])
  {
    seq(|s|, i requires 0 <= i < |s| => LowerChar(s[i]))
  }

  /** No character of `s` is changed by lowercasing. */
  predicate IsLowerCase(s: string) {
    forall i :: 0 <= i < |s| ==> LowerChar(s[i]) == s[i]
  }

  lemma LowerIsLowerCase(s: string)
    ensures IsLowerCase(Lower(s))
  {
  }

  lemma LowerIdempotent(s: string)
    ensures Lower(Lower(s)) == Lower(s)
  {
    LowerIsLowerCase(s);
    LowerOfLowerCase(Lower(s));
  }

  lemma LowerOfLowerCase(s: string)
    requires IsLowerCase(s)
    ensures Lower(s) == s
  {
  }

  /** Lowercasing, checked character by character. */
  lemma LowerEq(s: string, t: string)
    requires |s| == |t| && forall i :: 0 <= i < |s| ==> LowerChar(s[i]) == t[i]
    ensures Lower(s) == t
  {
  }

  lemma LowerConcat(a: string, b: string)
    ensures Lower(a + b) == Lower(a) + Lower(b)
  {
  }

  /** `receiver.equalsIgnoreCase(arg)` for a non-null receiver; a null argument gives false. */
  predicate EqualsIgnoreCase(receiver: string, arg: Option<string>) {
    arg.Some? && Lower(receiver) == Lower(arg.value)
  }

  /** `s.replaceAll(" ", "")`: every space removed. */
  function RemoveSpaces(s: string): (r: string)
    ensures ' ' !in r
    ensures forall c :: c in r ==> c in s
    ensures ' ' !in s ==> r == s
  {
    if s == [] then []
    else if s[0] == ' ' then RemoveSpaces(s[1..])
    else [s[0]] + RemoveSpaces(s[1..])
  }

  /** A single space is removed; any other single character is kept. */
  lemma RemoveSpacesSingle(c: char)
    ensures RemoveSpaces([c]) == if c == ' ' then [] else [c]
  {
    assert [c][1..] == [];
  }

  /**
   * Removing spaces works piece by piece. With the single-character case
   * this fixes the result: every space goes, every other character stays, in order.
   */
  lemma {:induction false} RemoveSpacesConcat(a: string, b: string)
    ensures RemoveSpaces(a + b) == RemoveSpaces(a) + RemoveSpaces(b)
  {
    if a != [] {
      assert (a + b)[0] == a[0];
      assert (a + b)[1..] == a[1..] + b;
      RemoveSpacesConcat(a[1..], b);
    } else {
      assert a + b == b;
    }
  }

  /** Every character but the space is kept, as often as it occurs. */
  lemma {:induction false} RemoveSpacesCounts(s: string)
    ensures multiset(RemoveSpaces(s)) == multiset(s)[' ' := 0]
  {
    if s != [] {
      RemoveSpacesCounts(s[1..]);
      assert s == [s[0]] + s[1..];
      assert multiset(s) == multiset([s[0]]) + multiset(s[1..]);
    }
  }

  // ---------------------------------------------------------------------
  // Splitting on commas

  /** The comma-separated pieces of `s`, empty ones included: one more piece than commas. */
  function Pieces(s: string): (r: seq<string>)
    ensures |r| >= 1
  {
    if s == [] then [[]]
    else
      var rest := Pieces(s[1..]);
      if s[0] == ',' then [[]] + rest else [[s[0]] + rest[0]] + rest[1..]
  }

  /** The pieces joined back with commas. */
  function Join(ps: seq<string>): string
    requires |ps| >= 1
  {
    if |ps| == 1 then ps[0] else ps[0] + "," + Join(ps[1..])
  }

  /** Splitting and joining again gives back the input. */
  lemma {:induction false} JoinPieces(s: string)
    ensures Join(Pieces(s)) == s
  {
    if s != [] {
      var rest := Pieces(s[1..]);
      JoinPieces(s[1..]);
      if s[0] == ',' {
        assert Pieces(s) == [[]] + rest;
        assert Pieces(s)[1..] == rest;
      } else {
        var ps := Pieces(s);
        assert ps == [[s[0]] + rest[0]] + rest[1..];
        if |rest| == 1 {
          assert |ps| == 1;
        } else {
          assert ps[1..] == rest[1..];
          assert Join(rest) == rest[0] + "," + Join(rest[1..]);
        }
      }
    }
  }

  /** Every character of a piece is a non-comma character of the input. */
  lemma {:induction false} PieceChars(s: string, p: string, c: char)
    requires p in Pieces(s) && c in p
    ensures c in s && c != ','
  {
    if s != [] {
      var rest := Pieces(s[1..]);
      if s[0] == ',' {
        if p in rest { PieceChars(s[1..], p, c); }
      } else if p == [s[0]] + rest[0] {
        if c != s[0] { PieceChars(s[1..], rest[0], c); }
      } else {
        assert p in rest;
        PieceChars(s[1..], p, c);
      }
    }
  }

  /** A string without commas is its own single piece. */
  lemma {:induction false} PiecesWithoutComma(s: string)
    requires ',' !in s
    ensures Pieces(s) == [s]
  {
    if s != [] {
      assert s[0] in s;
      assert forall c :: c in s[1..] ==> c in s;
      PiecesWithoutComma(s[1..]);
      assert [s[0]] + s[1..] == s;
    }
  }

  /** The pieces with the trailing empty ones removed, as `split` with limit 0 does. */
  function DropTrailingEmpty(ps: seq<string>): (r: seq<string>)
    ensures |r| <= |ps| && r == ps[..|r|]
    ensures forall i :: |r| <= i < |ps| ==> ps[i] == ""
    ensures r != [] ==> r[|r| - 1] != ""
  {
    if ps != [] && ps[|ps| - 1] == "" then DropTrailingEmpty(ps[..|ps| - 1]) else ps
  }

  /**
   * `s.split(",")`: without a comma in `s` the result is `[s]` (so "" gives [""]);
   * otherwise the pieces with trailing empty pieces dropped (so "," gives []).
   */
  function JavaSplit(s: string): (r: seq<string>)
    ensures ',' !in s ==> r == [s]
    ensures ',' in s ==> r == DropTrailingEmpty(Pieces(s))
  {
    if ',' !in s then [s] else DropTrailingEmpty(Pieces(s))
  }

  /** Dropping trailing empty pieces does not change the set of non-empty pieces. */
  lemma JavaSplitNonEmpty(s: string)
    ensures (set p | p in JavaSplit(s)) - {""} == (set p | p in Pieces(s)) - {""}
  {
    if ',' !in s {
      PiecesWithoutComma(s);
    } else {
      var ps := Pieces(s);
      var r := DropTrailingEmpty(ps);
      forall p | p in ps && p != "" ensures p in r {
        var i :| 0 <= i < |ps| && ps[i] == p;
        assert i < |r|;
        assert r[i] == p;
      }
    }
  }

  /** Every piece of `s.split(",")` is free of commas and made of characters of `s`. */
  lemma JavaSplitChars(s: string, p: string, c: char)
    requires p in JavaSplit(s) && c in p
    ensures c in s && c != ','
  {
    if ',' !in s {
    } else {
      var ps := Pieces(s);
      var i :| 0 <= i < |DropTrailingEmpty(ps)| && DropTrailingEmpty(ps)[i] == p;
      assert ps[i] == p;
      PieceChars(s, p, c);
    }
  }
}
