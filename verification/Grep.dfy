/** The matcher of user/grep.c and what patterns mean. */
module Grep {

  const NUL := '\0'

  function CharAt(s: string, i: nat): char {
    if i < |s| then s[i] else NUL
  }

  /** Patterns and texts are C strings. */
  predicate IsText(s: string) {
    NUL !in s
  }

  // -------------------------------------------------------------- what it means

  datatype Atom = Any | Lit(c: char)

  datatype Item = One(atom: Atom) | Star(atom: Atom) | End

  function AtomOf(c: char): Atom {
    if c == '.' then Any else Lit(c)
  }

  predicate Fits(a: Atom, c: char) {
    a == Any || a == Lit(c)
  }

  /** A character before "*" is repeated, a final "$" is the end of the text, and
      every other character stands for itself, also "*" and "$" elsewhere. */
  function Parse(re: string): seq<Item> {
    if re == "" then []
    else if CharAt(re, 1) == '*' then [Star(AtomOf(re[0]))] + Parse(re[2..])
    else if re == "$" then [End]
    else [One(AtomOf(re[0]))] + Parse(re[1..])
  }

  /** The item matches text[i..j]. */
  ghost predicate Matches(x: Item, text: string, i: nat, j: nat) {
    match x
    case One(a) => i < |text| && j == i + 1 && Fits(a, text[i])
    case Star(a) => i <= j <= |text| && forall k :: i <= k < j ==> Fits(a, text[k])
    case End => i == j == |text|
  }

  /** cuts divides a part of the text, from cuts[0] on, into one piece per item. */
  ghost predicate Divides(items: seq<Item>, text: string, cuts: seq<nat>) {
    && |cuts| == |items| + 1
    && forall k :: 0 <= k < |items| ==> Matches(items[k], text, cuts[k], cuts[k + 1])
  }

  /** The pattern matches at position i. */
  ghost predicate MatchesAt(items: seq<Item>, text: string, i: nat) {
    i <= |text| && exists cuts :: Divides(items, text, cuts) && cuts[0] == i
  }

  /** Some part of the text matches, from its start if the pattern begins with "^". */
  ghost predicate Meaning(re: string, text: string) {
    if CharAt(re, 0) == '^' then MatchesAt(Parse(re[1..]), text, 0)
    else exists i: nat :: i <= |text| && MatchesAt(Parse(re), text, i)
  }

  // ------------------------------------------------------------- what is computed

  /** matchhere() */
  predicate Here(re: string, text: string, i: nat)
    requires i <= |text|
    decreases |re|, |text| - i, 0
  {
    if re == "" then true
    else if CharAt(re, 1) == '*' then Repeat(re[0], re[2..], text, i)
    else if re[0] == '$' && |re| == 1 then i == |text|
    else if i < |text| && (re[0] == '.' || re[0] == text[i]) then Here(re[1..], text, i + 1)
    else false
  }

  /** matchstar() */
  predicate Repeat(c: char, re: string, text: string, i: nat)
    requires i <= |text|
    decreases |re|, |text| - i, 1
  {
    Here(re, text, i) || (i < |text| && (text[i] == c || c == '.') && Repeat(c, re, text, i + 1))
  }

  // ---------------------------------------------------------------- the theorem

  lemma Prepend(x: Item, items: seq<Item>, text: string, i: nat, j: nat)
    requires i <= |text| && Matches(x, text, i, j) && MatchesAt(items, text, j)
    ensures MatchesAt([x] + items, text, i)
  {
    var cuts :| Divides(items, text, cuts) && cuts[0] == j;
    var cuts' := [i] + cuts;
    forall k | 0 <= k < |[x] + items|
      ensures Matches(([x] + items)[k], text, cuts'[k], cuts'[k + 1])
    {
      if k > 0 {
        assert Matches(items[k - 1], text, cuts[k - 1], cuts[k]);
      }
    }
    assert Divides([x] + items, text, cuts');
  }

  lemma Uncons(x: Item, items: seq<Item>, text: string, i: nat) returns (j: nat)
    requires MatchesAt([x] + items, text, i)
    ensures Matches(x, text, i, j) && MatchesAt(items, text, j)
  {
    var cuts :| Divides([x] + items, text, cuts) && cuts[0] == i;
    j := cuts[1];
    assert Matches(([x] + items)[0], text, cuts[0], cuts[1]);
    forall k | 0 <= k < |items|
      ensures Matches(items[k], text, cuts[1..][k], cuts[1..][k + 1])
    {
      assert Matches(([x] + items)[k + 1], text, cuts[k + 1], cuts[k + 2]);
    }
    assert Divides(items, text, cuts[1..]);
  }

  lemma NothingLeft(text: string, i: nat)
    requires i <= |text|
    ensures MatchesAt([], text, i)
  {
    assert Divides([], text, [i]);
  }

  /** matchhere() is right about every pattern, text and position. */
  lemma {:induction false} HereIff(re: string, text: string, i: nat)
    requires IsText(re) && IsText(text) && i <= |text|
    ensures Here(re, text, i) <==> MatchesAt(Parse(re), text, i)
    decreases |re|, |text| - i, 0
  {
    if re == "" {
      NothingLeft(text, i);
    } else if CharAt(re, 1) == '*' {
      RepeatIff(re[0], re[2..], text, i);
    } else if re == "$" {
      NothingLeft(text, |text|);
      if i == |text| {
        Prepend(End, [], text, i, i);
        assert [End] + [] == [End];
      }
      if MatchesAt([End], text, i) {
        assert [End] + [] == [End];
        var j := Uncons(End, [], text, i);
      }
    } else {
      OneIff(re, text, i);
    }
  }

  lemma {:induction false} OneIff(re: string, text: string, i: nat)
    requires IsText(re) && IsText(text) && i <= |text| && re != "" && CharAt(re, 1) != '*' && re != "$"
    ensures Here(re, text, i) <==> MatchesAt(Parse(re), text, i)
    decreases |re|, |text| - i, 0, 0
  {
    var x := One(AtomOf(re[0]));
    if i < |text| {
      HereIff(re[1..], text, i + 1);
      if Fits(AtomOf(re[0]), text[i]) && MatchesAt(Parse(re[1..]), text, i + 1) {
        Prepend(x, Parse(re[1..]), text, i, i + 1);
      }
    }
    if MatchesAt(Parse(re), text, i) {
      var j := Uncons(x, Parse(re[1..]), text, i);
    }
  }

  lemma {:induction false} RepeatIff(c: char, re: string, text: string, i: nat)
    requires IsText(re) && IsText(text) && i <= |text|
    ensures Repeat(c, re, text, i) <==> MatchesAt([Star(AtomOf(c))] + Parse(re), text, i)
    decreases |re|, |text| - i, 1
  {
    var x, items := Star(AtomOf(c)), Parse(re);
    HereIff(re, text, i);
    if Here(re, text, i) {
      Prepend(x, items, text, i, i);
    }
    if i < |text| && Fits(AtomOf(c), text[i]) {
      RepeatIff(c, re, text, i + 1);
      if Repeat(c, re, text, i + 1) {
        var j := Uncons(x, items, text, i + 1);
        Prepend(x, items, text, i, j);
      }
    }
    if MatchesAt([x] + items, text, i) {
      var j := Uncons(x, items, text, i);
      if j > i {
        Prepend(x, items, text, i + 1, j);
      }
    }
  }

  // ------------------------------------------------------------------ the program

  method MatchHere(re: string, text: string, i: nat) returns (yes: bool)
    requires i <= |text|
    ensures yes == Here(re, text, i)
    decreases |re|, |text| - i, 0
  {
    if re == "" {
      return true;
    }
    if CharAt(re, 1) == '*' {
      yes := MatchStar(re[0], re[2..], text, i);
      return;
    }
    if re[0] == '$' && |re| == 1 {
      return i == |text|;
    }
    if i < |text| && (re[0] == '.' || re[0] == text[i]) {
      yes := MatchHere(re[1..], text, i + 1);
      return;
    }
    return false;
  }

  method MatchStar(c: char, re: string, text: string, i: nat) returns (yes: bool)
    requires i <= |text|
    ensures yes == Repeat(c, re, text, i)
    decreases |re|, |text| - i, 1
  {
    var j := i;
    while true
      invariant i <= j <= |text| && Repeat(c, re, text, i) == Repeat(c, re, text, j)
      decreases |text| - j
    {
      yes := MatchHere(re, text, j);
      if yes {
        return;
      }
      if j == |text| || !(text[j] == c || c == '.') {
        return false;
      }
      j := j + 1;
    }
  }

  /** match() answers exactly the question that the pattern poses. */
  method Match(re: string, text: string) returns (yes: bool)
    requires IsText(re) && IsText(text)
    ensures yes <==> Meaning(re, text)
  {
    if CharAt(re, 0) == '^' {
      yes := MatchHere(re[1..], text, 0);
      HereIff(re[1..], text, 0);
      return;
    }
    var i := 0;
    while true
      invariant 0 <= i <= |text| && forall j: nat :: j < i ==> !MatchesAt(Parse(re), text, j)
      decreases |text| - i
    {
      yes := MatchHere(re, text, i);
      HereIff(re, text, i);
      if yes {
        return;
      }
      if i == |text| {
        return false;
      }
      i := i + 1;
    }
  }
}
