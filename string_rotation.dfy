/**
 * Rotating a string by a multiple of 90 degrees (q1.py, string_rotation):
 * 0 keeps the string, 180 reverses it, 270 stacks its characters one per
 * line (joined by newlines) and 90 stacks them in reverse order. Any other
 * angle is an error, modelled as None.
 */
module StringRotation {
  import opened Wrappers

  /** The characters of `s` in reverse order. */
  function Reversed(s: string): (r: string)
    ensures |r| == |s|
    ensures forall i :: 0 <= i < |s| ==> r[i] == s[|s| - 1 - i]
  {
    if s == [] then [] else Reversed(s[1..]) + [s[0]]
  }

  /** The characters of `s` in order with a newline between each two neighbours. */
  function JoinWithNewlines(s: string): (r: string)
    ensures |r| == if s == [] then 0 else 2 * |s| - 1
    ensures forall i :: 0 <= i < |s| ==> r[2 * i] == s[i]
    ensures forall i :: 0 <= i < |r| && i % 2 == 1 ==> r[i] == '\n'
  {
    if |s| <= 1 then s
    else
      var rest := JoinWithNewlines(s[1..]);
      assert forall i :: 1 <= i < |s| ==> rest[2 * (i - 1)] == s[i];
      [s[0], '\n'] + rest
  }

  /** The characters at the even positions of `r`: undoes the joining above. */
  function EvenPositions(r: string): (s: string)
    ensures |s| == (|r| + 1) / 2
    ensures forall i :: 0 <= i < |s| ==> s[i] == r[2 * i]
  {
    if |r| <= 2 then (if r == [] then [] else [r[0]])
    else [r[0]] + EvenPositions(r[2..])
  }

  /** The angles the source accepts. */
  predicate ValidAngle(angle: int) {
    angle == 0 || angle == 90 || angle == 180 || angle == 270
  }

  /** The rotated string, or None for an angle that is not a multiple of 90 in [0, 270]. */
  function Rotate(s: string, angle: int): (r: Option<string>)
    ensures r.None? <==> !ValidAngle(angle)
    ensures angle == 0 ==> r == Some(s)
    ensures angle == 180 ==>
      r.Some? && |r.value| == |s| && forall i :: 0 <= i < |s| ==> r.value[i] == s[|s| - 1 - i]
    ensures angle == 90 || angle == 270 ==>
      r.Some? && |r.value| == (if s == [] then 0 else 2 * |s| - 1) &&
      forall i :: 0 <= i < |r.value| && i % 2 == 1 ==> r.value[i] == '\n'
    ensures angle == 270 ==> forall i :: 0 <= i < |s| ==> r.value[2 * i] == s[i]
    ensures angle == 90 ==> forall i :: 0 <= i < |s| ==> r.value[2 * i] == s[|s| - 1 - i]
  {
    if angle == 0 then Some(s)
    else if angle == 90 then Some(JoinWithNewlines(Reversed(s)))
    else if angle == 180 then Some(Reversed(s))
    else if angle == 270 then Some(JoinWithNewlines(s))
    else None
  }

  /** Reversing twice gives the string back. */
  lemma ReversedTwice(s: string)
    ensures Reversed(Reversed(s)) == s
  {
    var r := Reversed(s);
    assert forall i :: 0 <= i < |s| ==> Reversed(r)[i] == r[|s| - 1 - i] == s[i];
  }

  /** Rotating by 180 twice gives the string back. */
  lemma HalfTurnTwice(s: string)
    ensures Rotate(Rotate(s, 180).value, 180) == Some(s)
  {
    ReversedTwice(s);
  }

  /** Taking the even positions undoes the joining: the 270 rotation loses nothing. */
  lemma EvenPositionsOfJoin(s: string)
    ensures EvenPositions(JoinWithNewlines(s)) == s
  {
    var r := JoinWithNewlines(s);
    var e := EvenPositions(r);
    assert |e| == |s| by {
      if s != [] {
        assert (2 * |s| - 1 + 1) / 2 == |s|;
      }
    }
    forall i | 0 <= i < |s|
      ensures e[i] == s[i]
    {
    }
  }

  /** The 270 rotation is undone by taking every other character. */
  lemma TwoSeventyIsInvertible(s: string)
    ensures EvenPositions(Rotate(s, 270).value) == s
  {
    EvenPositionsOfJoin(s);
  }

  /** The 90 rotation is the 270 rotation of the 180 rotation. */
  lemma NinetyIsTwoSeventyOfOneEighty(s: string)
    ensures Rotate(s, 90) == Rotate(Rotate(s, 180).value, 270)
  {
  }

  /** The 90 and 270 rotations have the same length. */
  lemma NinetyAndTwoSeventySameLength(s: string)
    ensures |Rotate(s, 90).value| == |Rotate(s, 270).value|
  {
  }

  /** The sample calls on "allo": unchanged at 0, reversed at 180, refused at any other angle such as 45. */
  lemma AlloSamples()
    ensures Rotate("allo", 0) == Some("allo")
    ensures Rotate("allo", 180) == Some("olla")
    ensures Rotate("allo", 45) == None
  {
    assert Reversed("allo") == "olla";
  }

  /** The sample call on "allo" at 270: one character per line. */
  lemma AlloTwoSeventy()
    ensures Rotate("allo", 270) == Some("a\nl\nl\no")
  {
    var r := JoinWithNewlines("allo");
    assert |r| == 7;
    assert r[0] == 'a' && r[2] == 'l' && r[4] == 'l' && r[6] == 'o';
    assert r[1] == '\n' && r[3] == '\n' && r[5] == '\n';
    assert r == "a\nl\nl\no";
  }

  /** The sample call on "allo" at 90: one character per line, last character first. */
  lemma AlloNinety()
    ensures Rotate("allo", 90) == Some("o\nl\nl\na")
  {
    var r := JoinWithNewlines(Reversed("allo"));
    assert |r| == 7;
    assert r[0] == 'o' && r[2] == 'l' && r[4] == 'l' && r[6] == 'a';
    assert r[1] == '\n' && r[3] == '\n' && r[5] == '\n';
    assert r == "o\nl\nl\na";
  }
}
