/**
 * Python's `str.split(" ")` and `" ".join`, on which the Authorization
 * header is taken apart: the two are inverse to each other.
 */
module Words {
  /** Python's `s.split(" ")`: cut at every single space, keeping empty pieces. */
  function Split(s: string): (r: seq<string>)
    ensures |r| >= 1
    ensures forall p :: p in r ==> ' ' !in p
    decreases |s|
  {
    if |s| == 0 then [""]
    else
      var rest := Split(s[1..]);
      assert s == [s[0]] + s[1..];
      if s[0] == ' ' then [""] + rest
      else
        assert rest[0] in rest;
        [[s[0]] + rest[0]] + rest[1..]
  }

  /** There is one piece more than there are spaces. */
  lemma {:induction false} SplitCount(s: string)
    ensures |Split(s)| == multiset(s)[' '] + 1
    decreases |s|
  {
    if |s| > 0 {
      SplitCount(s[1..]);
      assert s == [s[0]] + s[1..];
      assert multiset(s) == multiset([s[0]]) + multiset(s[1..]);
    }
  }

  /** `" ".join(pieces)`. */
  function Join(pieces: seq<string>): string
    requires |pieces| >= 1
    decreases |pieces|
  {
    if |pieces| == 1 then pieces[0] else pieces[0] + " " + Join(pieces[1..])
  }

  /** Joining after an empty first piece puts a space in front. */
  lemma JoinEmptyHead(rest: seq<string>)
    requires |rest| >= 1
    ensures Join([""] + rest) == " " + Join(rest)
  {
    assert ([""] + rest)[1..] == rest;
  }

  /** Joining after a character is glued to the first piece puts that character in front. */
  lemma JoinGlued(c: char, rest: seq<string>)
    requires |rest| >= 1
    ensures Join([[c] + rest[0]] + rest[1..]) == [c] + Join(rest)
  {
    var r := [[c] + rest[0]] + rest[1..];
    if |rest| > 1 {
      var others := rest[1..];
      assert r[1..] == others;
      var j := Join(others);
      assert Join(r) == r[0] + " " + j;
      assert Join(rest) == rest[0] + " " + j;
      ConsAssoc(c, rest[0], j);
    }
  }

  /** Putting a character in front of a piece puts it in front of the piece joined with more. */
  lemma ConsAssoc(c: char, a: string, b: string)
    ensures ([c] + a) + " " + b == [c] + (a + " " + b)
  {
  }

  /** Splitting a string and joining its pieces with spaces gives the string back. */
  lemma {:induction false} JoinSplit(s: string)
    ensures Join(Split(s)) == s
    decreases |s|
  {
    if |s| > 0 {
      var tail := s[1..];
      JoinSplit(tail);
      if s[0] == ' ' {
        JoinEmptyHead(Split(tail));
      } else {
        JoinGlued(s[0], Split(tail));
      }
      assert s == [s[0]] + tail;
    }
  }

  /** Cutting at the first space: a word without spaces is the first piece. */
  lemma {:induction false} SplitAtSpace(w: string, rest: string)
    requires ' ' !in w
    ensures Split(w + " " + rest) == [w] + Split(rest)
    decreases |w|
  {
    if |w| == 0 {
      assert w + " " + rest == [' '] + rest;
      assert ([' '] + rest)[1..] == rest;
    } else {
      assert w[0] != ' ' by { assert w[0] in w; }
      NoSpaceTail(w);
      SplitAtSpace(w[1..], rest);
      var t := w[1..] + " " + rest;
      assert w + " " + rest == [w[0]] + t;
      var p := Split(t);
      assert p[0] == w[1..] && p[1..] == Split(rest);
      SplitGlued(w[0], t);
      assert [w[0]] + w[1..] == w;
    }
  }

  /** Dropping the first character of a string without spaces leaves one without spaces. */
  lemma NoSpaceTail(w: string)
    requires |w| > 0 && ' ' !in w
    ensures ' ' !in w[1..]
  {
    forall k | 0 <= k < |w[1..]| ensures w[1..][k] != ' ' { assert w[1..][k] == w[k + 1]; }
  }

  /** A character other than a space joins the first piece of what follows it. */
  lemma SplitGlued(c: char, s: string)
    requires c != ' '
    ensures Split([c] + s) == [[c] + Split(s)[0]] + Split(s)[1..]
  {
    assert ([c] + s)[0] == c && ([c] + s)[1..] == s;
  }

  /** Pieces without spaces are recovered from their join. */
  lemma {:induction false} SplitJoin(pieces: seq<string>)
    requires |pieces| >= 1
    requires forall p :: p in pieces ==> ' ' !in p
    ensures Split(Join(pieces)) == pieces
    decreases |pieces|
  {
    if |pieces| == 1 {
      SplitNoSpace(pieces[0]);
    } else {
      assert pieces[0] in pieces;
      SplitJoin(pieces[1..]);
      SplitAtSpace(pieces[0], Join(pieces[1..]));
      assert [pieces[0]] + pieces[1..] == pieces;
    }
  }

  /** A string without spaces is a single piece. */
  lemma {:induction false} SplitNoSpace(s: string)
    requires ' ' !in s
    ensures Split(s) == [s]
    decreases |s|
  {
    if |s| > 0 {
      assert s[0] in s;
      assert ' ' !in s[1..] by {
        forall k | 0 <= k < |s[1..]| ensures s[1..][k] != ' ' { assert s[1..][k] == s[k + 1]; }
      }
      SplitNoSpace(s[1..]);
      assert [s[0]] + s[1..] == s;
    }
  }
}
