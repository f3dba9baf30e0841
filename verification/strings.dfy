/** String rules the components rely on, written over `seq<char>` with the
    JavaScript meaning of each built-in. */
module Strings {

  /** The characters JavaScript's `\s` class and `String.prototype.trim`
      treat as white space (WhiteSpace and LineTerminator of ECMAScript). */
  predicate IsSpace(c: char) {
    || c == '\t' || c == '\n' || c == '\U{000B}' || c == '\U{000C}' || c == '\r'
    || c == ' ' || c == '\U{00A0}' || c == '\U{1680}'
    || ('\U{2000}' <= c <= '\U{200A}')
    || c == '\U{2028}' || c == '\U{2029}' || c == '\U{202F}' || c == '\U{205F}'
    || c == '\U{3000}' || c == '\U{FEFF}'
  }

  predicate HasSpace(s: string) {
    exists i :: 0 <= i < |s| && IsSpace(s[i])
  }

  /** Every character is white space, so `s.trim()` is falsy. */
  predicate IsBlank(s: string) {
    forall i :: 0 <= i < |s| ==> IsSpace(s[i])
  }

  /** `s.trimStart()`: drops the leading white space. */
  function TrimStart(s: string): (r: string)
    ensures |r| <= |s| && r == s[|s| - |r|..]
    ensures r == [] || !IsSpace(r[0])
    ensures forall i :: 0 <= i < |s| - |r| ==> IsSpace(s[i])
  {
    if |s| > 0 && IsSpace(s[0]) then TrimStart(s[1..]) else s
  }

  /** `s.trimEnd()`: drops the trailing white space. */
  function TrimEnd(s: string): (r: string)
    ensures |r| <= |s| && r == s[..|r|]
    ensures r == [] || !IsSpace(r[|r| - 1])
    ensures forall i :: |r| <= i < |s| ==> IsSpace(s[i])
  {
    if |s| > 0 && IsSpace(s[|s| - 1]) then TrimEnd(s[..|s| - 1]) else s
  }

  /** `s.trim()`. */
  function Trim(s: string): (r: string)
  {
    TrimEnd(TrimStart(s))
  }

  /** `s.trim()` is the empty string exactly when `s` is blank, and
      otherwise it is a non-blank slice of `s` with no white space at
      either end. */
  lemma TrimEmptyIffBlank(s: string)
    ensures Trim(s) == [] <==> IsBlank(s)
    ensures Trim(s) != [] ==> !IsSpace(Trim(s)[0]) && !IsSpace(Trim(s)[|Trim(s)| - 1])
  {
    var t := TrimStart(s);
    if Trim(s) == [] {
      assert t == [];
    } else {
      assert Trim(s)[0] == t[0];
    }
  }

  /** How many UTF-16 code units JavaScript stores for one character: two
      for a character outside the Basic Multilingual Plane, one otherwise. */
  function Utf16Units(c: char): (n: nat)
    ensures n == 1 || n == 2
    ensures n == 2 <==> c as int > 0xFFFF
  {
    if c as int > 0xFFFF then 2 else 1
  }

  /** `s.length`: the number of UTF-16 code units. */
  function Utf16Length(s: string): (n: nat)
    ensures |s| <= n <= 2 * |s|
    ensures (forall i :: 0 <= i < |s| ==> s[i] as int <= 0xFFFF) ==> n == |s|
  {
    if |s| == 0 then 0 else Utf16Length(s[..|s| - 1]) + Utf16Units(s[|s| - 1])
  }

  /** The code-unit length of a concatenation is the sum of the parts'. */
  lemma {:induction false} Utf16LengthAppend(a: string, b: string)
    ensures Utf16Length(a + b) == Utf16Length(a) + Utf16Length(b)
    decreases |b|
  {
    if |b| > 0 {
      Utf16LengthAppend(a, b[..|b| - 1]);
      assert (a + b)[..|a + b| - 1] == a + b[..|b| - 1];
    } else {
      assert a + b == a;
    }
  }

  predicate StartsWith(s: string, prefix: string) {
    |prefix| <= |s| && s[..|prefix|] == prefix
  }

  predicate OccursAt(s: string, sub: string, i: int)
  {
    0 <= i && i + |sub| <= |s| && s[i..i + |sub|] == sub
  }

  /** `s.includes(sub)`. */
  predicate Contains(s: string, sub: string) {
    exists i :: 0 <= i <= |s| && OccursAt(s, sub, i)
  }

  function LowerChar(c: char): (r: char)
  {
    if 'A' <= c <= 'Z' then (c as int + 32) as char else c
  }

  /** `s.toLowerCase()` on the ASCII letters. */
  function ToLower(s: string): (r: string)
    ensures |r| == |s|
    ensures forall i :: 0 <= i < |s| ==> r[i] == LowerChar(s[i])
  {
    seq(|s|, i requires 0 <= i < |s| => LowerChar(s[i]))
  }

  /** `parts.join(sep)`. */
  function Join(parts: seq<string>, sep: string): string
  {
    if |parts| == 0 then ""
    else if |parts| == 1 then parts[0]
    else parts[0] + sep + Join(parts[1..], sep)
  }

  /** `s.split(sep)` for a non-empty separator: the pieces between the
      leftmost non-overlapping occurrences of `sep`, always at least one. */
  function Split(s: string, sep: string): (r: seq<string>)
    requires |sep| > 0
    ensures |r| >= 1
    decreases |s|
  {
    if |s| < |sep| then [s]
    else if s[..|sep|] == sep then [""] + Split(s[|sep|..], sep)
    else
      var rest := Split(s[1..], sep);
      [[s[0]] + rest[0]] + rest[1..]
  }

  /** Joining a list with an empty first piece puts the separator first. */
  lemma JoinEmptyHead(rest: seq<string>, sep: string)
    requires |rest| >= 1
    ensures Join([""] + rest, sep) == sep + Join(rest, sep)
  {
    assert ([""] + rest)[1..] == rest;
  }

  /** Growing the first piece by one character grows the joined string by
      that character in front. */
  lemma JoinExtendHead(c: char, rest: seq<string>, sep: string)
    requires |rest| >= 1
    ensures Join([[c] + rest[0]] + rest[1..], sep) == [c] + Join(rest, sep)
  {
    var parts := [[c] + rest[0]] + rest[1..];
    if |rest| > 1 {
      assert parts[1..] == rest[1..];
      assert Join(parts, sep) == [c] + rest[0] + sep + Join(rest[1..], sep);
    }
  }

  /** Joining the pieces of a split gives back the string, whatever it is. */
  lemma {:induction false} JoinSplit(s: string, sep: string)
    requires |sep| > 0
    ensures Join(Split(s, sep), sep) == s
    decreases |s|
  {
    if |s| < |sep| {
    } else if s[..|sep|] == sep {
      JoinSplit(s[|sep|..], sep);
      JoinEmptyHead(Split(s[|sep|..], sep), sep);
      assert s == s[..|sep|] + s[|sep|..];
    } else {
      JoinSplit(s[1..], sep);
      JoinExtendHead(s[0], Split(s[1..], sep), sep);
      assert s == [s[0]] + s[1..];
    }
  }

  /** The separator the editors use to show a list as one line of text. */
  const ListSeparator: string := ", "

  /** A piece without the separator comes back from `split` as itself. */
  lemma {:induction false} SplitPiece(x: string)
    requires !Contains(x, ListSeparator)
    ensures Split(x, ListSeparator) == [x]
    decreases |x|
  {
    if |x| >= |ListSeparator| {
      assert !OccursAt(x, ListSeparator, 0);
      assert !Contains(x[1..], ListSeparator) by {
        forall i | 0 <= i <= |x[1..]| && OccursAt(x[1..], ListSeparator, i)
          ensures false
        {
          assert x[i + 1..i + 1 + |ListSeparator|] == x[1..][i..i + |ListSeparator|];
          assert OccursAt(x, ListSeparator, i + 1);
        }
      }
      SplitPiece(x[1..]);
      assert x == [x[0]] + x[1..];
    }
  }

  /** `split` cuts a separator-free piece off the front of a joined string:
      no occurrence of ", " can start inside the piece and run into the
      separator, because the separator begins with ',' and not ' '. */
  lemma {:induction false} SplitAfterPiece(x: string, rest: string)
    requires !Contains(x, ListSeparator)
    ensures Split(x + ListSeparator + rest, ListSeparator) == [x] + Split(rest, ListSeparator)
    decreases |x|
  {
    var s := x + ListSeparator + rest;
    if |x| == 0 {
      assert s[..|ListSeparator|] == ListSeparator;
      assert s[|ListSeparator|..] == rest;
    } else {
      if |x| >= 2 {
        assert s[..2] == x[..2];
        assert !OccursAt(x, ListSeparator, 0);
      } else {
        assert s[1] == ',';
      }
      assert s[..|ListSeparator|] != ListSeparator;
      assert !Contains(x[1..], ListSeparator) by {
        forall i | 0 <= i <= |x[1..]| && OccursAt(x[1..], ListSeparator, i)
          ensures false
        {
          assert x[i + 1..i + 1 + |ListSeparator|] == x[1..][i..i + |ListSeparator|];
          assert OccursAt(x, ListSeparator, i + 1);
        }
      }
      assert s[1..] == x[1..] + ListSeparator + rest;
      SplitAfterPiece(x[1..], rest);
      assert x == [x[0]] + x[1..];
    }
  }

  /** `join(', ')` followed by `split(', ')` gives the list back when it is
      non-empty and no item contains ", ". */
  lemma {:induction false} SplitJoin(xs: seq<string>)
    requires |xs| >= 1
    requires forall i :: 0 <= i < |xs| ==> !Contains(xs[i], ListSeparator)
    ensures Split(Join(xs, ListSeparator), ListSeparator) == xs
    decreases |xs|
  {
    if |xs| == 1 {
      SplitPiece(xs[0]);
    } else {
      SplitJoin(xs[1..]);
      SplitAfterPiece(xs[0], Join(xs[1..], ListSeparator));
      assert xs == [xs[0]] + xs[1..];
    }
  }
}
