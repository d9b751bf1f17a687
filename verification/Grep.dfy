/** grep.c's matcher against what a pattern means: a row of elements, each of which takes its piece of
    the text, one piece after the other. */
module Grep {

  /** One character, any run of one character, or the end of the text; '.' stands for any character. */
  datatype Elem = One(c: char) | Star(c: char) | End

  predicate Like(c: char, x: char) {
    c == '.' || x == c
  }

  /** The pattern taken apart: a star binds to the character before it even if that is $, and $ is
      special only as the last character. */
  function Elems(re: string): seq<Elem> {
    if re == "" then []
    else if |re| > 1 && re[1] == '*' then [Star(re[0])] + Elems(re[2..])
    else if re == "$" then [End]
    else [One(re[0])] + Elems(re[1..])
  }

  /** An element takes the text from a up to b. */
  predicate Takes(e: Elem, t: string, a: nat, b: nat)
    requires a <= b <= |t|
  {
    match e
    case One(c) => b == a + 1 && Like(c, t[a])
    case Star(c) => forall k :: a <= k < b ==> Like(c, t[k])
    case End => a == b == |t|
  }

  predicate PieceAt(es: seq<Elem>, t: string, cuts: seq<nat>, i: nat)
    requires i < |es| && |cuts| == |es| + 1
  {
    cuts[i] <= cuts[i + 1] <= |t| && Takes(es[i], t, cuts[i], cuts[i + 1])
  }

  /** cuts divides the text from a on into one piece for each element. */
  ghost predicate Divides(es: seq<Elem>, t: string, a: nat, cuts: seq<nat>) {
    && |cuts| == |es| + 1 && cuts[0] == a
    && a <= |t| && forall i :: 0 <= i < |es| ==> PieceAt(es, t, cuts, i)
  }

  /** Some substring that starts at a matches. */
  ghost predicate MatchesAt(es: seq<Elem>, t: string, a: nat) {
    exists cuts :: Divides(es, t, a, cuts)
  }

  /** What a pattern promises: a leading ^ ties it to the start of the text. */
  ghost predicate Matches(re: string, t: string) {
    if re != "" && re[0] == '^' then MatchesAt(Elems(re[1..]), t, 0)
    else exists a :: 0 <= a <= |t| && MatchesAt(Elems(re), t, a)
  }

  // ------------------------------------------------------------- the proofs

  lemma NoElems(t: string, a: nat)
    requires a <= |t|
    ensures MatchesAt([], t, a)
  {
    assert Divides([], t, a, [a]);
  }

  /** The first element takes a piece and the rest match from there. */
  lemma FirstElem(e: Elem, es: seq<Elem>, t: string, a: nat)
    requires a <= |t|
    ensures MatchesAt([e] + es, t, a) <==> exists b :: a <= b <= |t| && Takes(e, t, a, b) && MatchesAt(es, t, b)
  {
    if MatchesAt([e] + es, t, a) {
      var cuts :| Divides([e] + es, t, a, cuts);
      Rest(e, es, t, a, cuts);
    }
    if b :| a <= b <= |t| && Takes(e, t, a, b) && MatchesAt(es, t, b) {
      var cuts :| Divides(es, t, b, cuts);
      Prefixed(e, es, t, a, b, cuts);
    }
  }

  lemma Rest(e: Elem, es: seq<Elem>, t: string, a: nat, cuts: seq<nat>)
    requires a <= |t| && Divides([e] + es, t, a, cuts)
    ensures a <= cuts[1] <= |t| && Takes(e, t, a, cuts[1]) && MatchesAt(es, t, cuts[1])
  {
    assert ([e] + es)[0] == e;
    assert PieceAt([e] + es, t, cuts, 0);
    forall i | 0 <= i < |es| ensures PieceAt(es, t, cuts[1..], i) {
      assert PieceAt([e] + es, t, cuts, i + 1) && es[i] == ([e] + es)[i + 1];
    }
    assert Divides(es, t, cuts[1], cuts[1..]);
  }

  lemma Prefixed(e: Elem, es: seq<Elem>, t: string, a: nat, b: nat, cuts: seq<nat>)
    requires a <= b <= |t| && Takes(e, t, a, b) && Divides(es, t, b, cuts)
    ensures MatchesAt([e] + es, t, a)
  {
    var all := [a] + cuts;
    forall i | 0 <= i < |[e] + es| ensures PieceAt([e] + es, t, all, i) {
      if i > 0 {
        assert PieceAt(es, t, cuts, i - 1) && all[i] == cuts[i - 1] && all[i + 1] == cuts[i];
      }
    }
    assert Divides([e] + es, t, a, all);
  }

  lemma OneElem(c: char, es: seq<Elem>, t: string, a: nat)
    requires a <= |t|
    ensures MatchesAt([One(c)] + es, t, a) <==> a < |t| && Like(c, t[a]) && MatchesAt(es, t, a + 1)
  {
    FirstElem(One(c), es, t, a);
    if a < |t| && Like(c, t[a]) && MatchesAt(es, t, a + 1) {
      assert Takes(One(c), t, a, a + 1);
    }
  }

  lemma EndElem(t: string, a: nat)
    requires a <= |t|
    ensures MatchesAt([End], t, a) <==> a == |t|
  {
    FirstElem(End, [], t, a);
    assert [End] + [] == [End];
    if a == |t| {
      NoElems(t, a);
      assert Takes(End, t, a, a);
    }
  }

  /** matchhere: whether the pattern matches text that starts at a. */
  method MatchHere(re: string, text: string, a: nat) returns (r: bool)
    requires a <= |text|
    ensures r <==> MatchesAt(Elems(re), text, a)
    decreases |re|, 0
  {
    if re == "" {
      NoElems(text, a);
      return true;
    }
    if |re| > 1 && re[1] == '*' {
      r := MatchStar(re[0], re[2..], text, a);
      return;
    }
    if re[0] == '$' && |re| == 1 {
      EndElem(text, a);
      return a == |text|;
    }
    OneElem(re[0], Elems(re[1..]), text, a);
    if a < |text| && (re[0] == '.' || re[0] == text[a]) {
      r := MatchHere(re[1..], text, a + 1);
      return;
    }
    return false;
  }

  /** matchstar: the loop tries the shortest run first. */
  method MatchStar(c: char, re: string, text: string, a: nat) returns (r: bool)
    requires a <= |text|
    ensures r <==> MatchesAt([Star(c)] + Elems(re), text, a)
    decreases |re|, 1
  {
    FirstElem(Star(c), Elems(re), text, a);
    var k := a;
    var going := true;
    r := false;
    while going
      invariant a <= k <= |text| && !r && (forall i :: a <= i < k ==> Like(c, text[i]))
      invariant forall b :: a <= b < k ==> !MatchesAt(Elems(re), text, b)
      invariant !going ==> !MatchesAt(Elems(re), text, k) && (k == |text| || !Like(c, text[k]))
      decreases |text| - k, going
    {
      r := MatchHere(re, text, k);
      if r {
        assert Takes(Star(c), text, a, k);
        return;
      }
      going := k < |text| && (text[k] == c || c == '.');
      if going {
        k := k + 1;
      }
    }
    forall b | a <= b <= |text| && Takes(Star(c), text, a, b) ensures !MatchesAt(Elems(re), text, b) {
      assert b <= k;
    }
  }

  /** match: 1 exactly when some substring has the meaning of the pattern. */
  method Match(re: string, text: string) returns (r: bool)
    ensures r <==> Matches(re, text)
  {
    if re != "" && re[0] == '^' {
      r := MatchHere(re[1..], text, 0);
      return;
    }
    var a := 0;
    while true
      invariant a <= |text| && forall b :: 0 <= b < a ==> !MatchesAt(Elems(re), text, b)
      decreases |text| - a
    {
      r := MatchHere(re, text, a);
      if r {
        return;
      }
      if a == |text| {
        return false;
      }
      a := a + 1;
    }
  }
}
