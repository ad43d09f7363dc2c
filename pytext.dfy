/** The two Python string operations the ordering filter relies on:
    `str.split(sep)` with an explicit separator, and `tuple(s)` on a string,
    which yields its characters as one-character strings. */
module PyText {

  /** `sep` occurs in `s` at position `i`. */
  predicate OccursAt(s: string, sep: string, i: nat) {
    i + |sep| <= |s| && s[i..i + |sep|] == sep
  }

  predicate Contains(s: string, sep: string) {
    exists i: nat | i <= |s| :: OccursAt(s, sep, i)
  }

  /** `sep.join(parts)`. */
  function Join(parts: seq<string>, sep: string): string
    requires |parts| > 0
  {
    if |parts| == 1 then parts[0] else parts[0] + sep + Join(parts[1..], sep)
  }

  /** `s.split(sep)`: cut `s` at every occurrence of `sep`, scanning left to
      right without overlap, keeping empty pieces. */
  function Split(s: string, sep: string): (parts: seq<string>)
    requires |sep| > 0
    ensures |parts| > 0
    ensures Join(parts, sep) == s
    ensures |parts[0]| <= |s| && parts[0] == s[..|parts[0]|]
    decreases |s|
  {
    if |s| < |sep| then [s]
    else if s[..|sep|] == sep then [""] + Split(s[|sep|..], sep)
    else
      var rest := Split(s[1..], sep);
      [[s[0]] + rest[0]] + rest[1..]
  }

  /** An occurrence at `i >= 1` in `s` is an occurrence at `i - 1` in `s[1..]`. */
  lemma OccursAtShift(s: string, sep: string)
    requires |s| > 0
    ensures forall i: nat | i >= 1 :: OccursAt(s, sep, i) <==> OccursAt(s[1..], sep, i - 1)
  {
  }

  /** `Split` cuts at the leftmost occurrence, as Python does: the first
      piece holds no occurrence of the separator, and when there is a second
      piece the separator starts right after the first. */
  lemma {:induction false} SplitCutsLeftmost(s: string, sep: string)
    requires |sep| > 0
    ensures forall i: nat | i < |Split(s, sep)[0]| :: !OccursAt(s, sep, i)
    ensures |Split(s, sep)| > 1 ==> OccursAt(s, sep, |Split(s, sep)[0]|)
    decreases |s|
  {
    if |s| < |sep| {
    } else if s[..|sep|] == sep {
    } else {
      SplitCutsLeftmost(s[1..], sep);
      OccursAtShift(s, sep);
      var rest := Split(s[1..], sep);
      assert Split(s, sep) == [[s[0]] + rest[0]] + rest[1..];
      if |rest| > 1 {
        assert OccursAt(s[1..], sep, |rest[0]|);
      }
    }
  }

  /** After the first cut, `Split` goes on splitting what follows the
      separator: together with `SplitCutsLeftmost` this fixes every cut. */
  lemma {:induction false} SplitContinues(s: string, sep: string)
    requires |sep| > 0
    ensures |Split(s, sep)| > 1 ==>
              |Split(s, sep)[0]| + |sep| <= |s|
              && Split(s, sep)[1..] == Split(s[|Split(s, sep)[0]| + |sep|..], sep)
    decreases |s|
  {
    if |s| < |sep| {
    } else if s[..|sep|] == sep {
    } else {
      var rest := Split(s[1..], sep);
      assert Split(s, sep) == [[s[0]] + rest[0]] + rest[1..];
      if |rest| > 1 {
        SplitContinues(s[1..], sep);
        assert s[1..][|rest[0]| + |sep|..] == s[1 + |rest[0]| + |sep|..];
      }
    }
  }

  /** No piece produced by `Split` contains the separator. */
  lemma {:induction false} SplitPiecesFree(s: string, sep: string)
    requires |sep| > 0
    ensures forall i :: 0 <= i < |Split(s, sep)| ==> !Contains(Split(s, sep)[i], sep)
    decreases |s|
  {
    var parts := Split(s, sep);
    if |s| < |sep| {
      forall j: nat ensures !OccursAt(s, sep, j) { }
    } else if s[..|sep|] == sep {
      SplitPiecesFree(s[|sep|..], sep);
      var rest := Split(s[|sep|..], sep);
      assert parts == [""] + rest;
      forall i | 0 <= i < |parts| ensures !Contains(parts[i], sep) {
        if i == 0 {
          forall j: nat ensures !OccursAt("", sep, j) { }
        } else {
          assert parts[i] == rest[i - 1];
        }
      }
    } else {
      SplitPiecesFree(s[1..], sep);
      var rest := Split(s[1..], sep);
      var head := [s[0]] + rest[0];
      assert parts == [head] + rest[1..];
      assert head == s[..|head|];
      forall j: nat | OccursAt(head, sep, j) ensures false {
        if j > 0 {
          assert head[j..j + |sep|] == rest[0][j - 1..j - 1 + |sep|];
          assert OccursAt(rest[0], sep, j - 1);
        }
      }
      forall i | 0 <= i < |parts| ensures !Contains(parts[i], sep) {
        if i > 0 {
          assert parts[i] == rest[i];
        }
      }
    }
  }

  /** A string without the separator splits into itself alone. */
  lemma SplitWithoutSeparator(s: string, sep: string)
    requires |sep| > 0
    requires !Contains(s, sep)
    ensures |Split(s, sep)| == 1
    ensures Split(s, sep)[0] == s
  {
    // were there a second piece, the separator would sit right after the first
    SplitCutsLeftmost(s, sep);
  }

  /** `tuple(s)` for a string `s`: one one-character string per character. */
  function Characters(s: string): (r: seq<string>)
    ensures |r| == |s|
    ensures forall i :: 0 <= i < |s| ==> r[i] == [s[i]]
  {
    if s == [] then [] else [[s[0]]] + Characters(s[1..])
  }

  /** `''.join(xs)`. */
  function Concat(xs: seq<string>): string {
    if xs == [] then "" else xs[0] + Concat(xs[1..])
  }

  /** Joining the characters back gives the string: `tuple(s)` loses nothing,
      it only cuts `s` into pieces of length one. */
  lemma {:induction false} CharactersConcat(s: string)
    ensures Concat(Characters(s)) == s
  {
    if s != [] {
      CharactersConcat(s[1..]);
      assert Characters(s)[1..] == Characters(s[1..]);
    }
  }
}
