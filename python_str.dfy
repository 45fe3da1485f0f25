/**
 * The two Python 2 string builtins the trajectory parser relies on:
 * `str.strip()` with no argument, and `str.split(' ')` with an explicit
 * single-space separator. Both are pure, so they are modelled as functions
 * whose contracts say what the result means, with lemmas relating them to
 * an independent reference (joining the tokens back together).
 */
module PyStr {

  /** The characters Python 2's `str.strip()` removes: space, and tab, LF,
      VT, FF and CR, which are the codes 9 to 13. */
  predicate IsWhitespace(c: char) {
    c == ' ' || ('\t' <= c <= '\r')
  }

  /** `s` with its leading whitespace removed. */
  function TrimStart(s: string): string
    decreases |s|
  {
    if |s| > 0 && IsWhitespace(s[0]) then TrimStart(s[1..]) else s
  }

  /** `s` with its trailing whitespace removed. */
  function TrimEnd(s: string): string
    decreases |s|
  {
    if |s| > 0 && IsWhitespace(s[|s| - 1]) then TrimEnd(s[..|s| - 1]) else s
  }

  /** `s.strip()`. */
  function Strip(s: string): string {
    TrimEnd(TrimStart(s))
  }

  /** `TrimStart` keeps a suffix of `s` that starts at a non-whitespace
      character (or is empty) and drops only whitespace. */
  lemma {:induction false} TrimStartShape(s: string)
    ensures |TrimStart(s)| <= |s| && TrimStart(s) == s[|s| - |TrimStart(s)|..]
    ensures forall k :: 0 <= k < |s| - |TrimStart(s)| ==> IsWhitespace(s[k])
    ensures TrimStart(s) == [] || !IsWhitespace(TrimStart(s)[0])
    decreases |s|
  {
    if |s| > 0 && IsWhitespace(s[0]) {
      TrimStartShape(s[1..]);
    }
  }

  /** `TrimEnd` keeps a prefix of `s` that ends at a non-whitespace character
      (or is empty) and drops only whitespace. */
  lemma {:induction false} TrimEndShape(s: string)
    ensures |TrimEnd(s)| <= |s| && TrimEnd(s) == s[..|TrimEnd(s)|]
    ensures forall k :: |TrimEnd(s)| <= k < |s| ==> IsWhitespace(s[k])
    ensures TrimEnd(s) == [] || !IsWhitespace(TrimEnd(s)[|TrimEnd(s)| - 1])
    decreases |s|
  {
    if |s| > 0 && IsWhitespace(s[|s| - 1]) {
      TrimEndShape(s[..|s| - 1]);
    }
  }

  /** Cutting whitespace off the front of `s` to get `t`, then off the back
      of `t` to get `r`, leaves `r` as a slice of `s` with only whitespace
      around it. */
  lemma TrimBoth(s: string, t: string, r: string)
    requires |t| <= |s| && t == s[|s| - |t|..]
    requires forall k :: 0 <= k < |s| - |t| ==> IsWhitespace(s[k])
    requires t == [] || !IsWhitespace(t[0])
    requires |r| <= |t| && r == t[..|r|]
    requires forall k :: |r| <= k < |t| ==> IsWhitespace(t[k])
    requires r == [] || !IsWhitespace(r[|r| - 1])
    ensures var i := |s| - |t|;
      && i + |r| <= |s|
      && r == s[i..i + |r|]
      && (forall k :: 0 <= k < i ==> IsWhitespace(s[k]))
      && (forall k :: i + |r| <= k < |s| ==> IsWhitespace(s[k]))
      && (r == [] || (!IsWhitespace(r[0]) && !IsWhitespace(r[|r| - 1])))
  {
    var i := |s| - |t|;
    forall k | i + |r| <= k < |s| ensures IsWhitespace(s[k]) {
      assert s[k] == t[k - i];
    }
    if r != [] {
      assert r[0] == t[0];
    }
  }

  /** `strip` keeps the slice of `s` from its first to its last non-whitespace
      character: `s[i..j]`, with only whitespace before `i` and from `j` on. */
  lemma StripShape(s: string)
    ensures var r, i := Strip(s), |s| - |TrimStart(s)|;
      && 0 <= i && i + |r| <= |s|
      && r == s[i..i + |r|]
      && (forall k :: 0 <= k < i ==> IsWhitespace(s[k]))
      && (forall k :: i + |r| <= k < |s| ==> IsWhitespace(s[k]))
      && (r == [] || (!IsWhitespace(r[0]) && !IsWhitespace(r[|r| - 1])))
  {
    TrimStartShape(s);
    TrimEndShape(TrimStart(s));
    TrimBoth(s, TrimStart(s), Strip(s));
  }

  /** A string with no whitespace at either end is left alone by `strip`. */
  lemma StripTrimmed(s: string)
    requires s == [] || (!IsWhitespace(s[0]) && !IsWhitespace(s[|s| - 1]))
    ensures Strip(s) == s
  {
  }

  /** Stripping twice is stripping once. */
  lemma StripIdempotent(s: string)
    ensures Strip(Strip(s)) == Strip(s)
  {
    StripShape(s);
    StripTrimmed(Strip(s));
  }

  /** Number of occurrences of `c` in `s`. */
  function Occurrences(s: string, c: char): nat {
    multiset(s)[c]
  }

  /** `t` contains no space. */
  predicate NoSpace(t: string) {
    forall k :: 0 <= k < |t| ==> t[k] != ' '
  }

  /** The index of the first space in `s`, or `|s|` when there is none. */
  function SpaceIndex(s: string): (i: nat)
    ensures i <= |s| && NoSpace(s[..i])
    ensures i < |s| ==> s[i] == ' '
    decreases |s|
  {
    if |s| == 0 || s[0] == ' ' then 0 else 1 + SpaceIndex(s[1..])
  }

  /** `s.split(' ')`: the pieces of `s` between single spaces. Neighbouring
      spaces, or a space at either end, yield empty pieces, and the empty
      string yields `[""]`. */
  function Split(s: string): (r: seq<string>)
    ensures |r| >= 1
    decreases |s|
  {
    var i := SpaceIndex(s);
    if i == |s| then [s] else [s[..i]] + Split(s[i + 1..])
  }

  /** The first space is the only space with no space before it. */
  lemma {:induction false} SpaceIndexAt(s: string, j: nat)
    requires j <= |s| && NoSpace(s[..j])
    requires j < |s| ==> s[j] == ' '
    ensures SpaceIndex(s) == j
    decreases |s|
  {
    if |s| > 0 && s[0] != ' ' {
      assert s[1..][..j - 1] == s[..j][1..];
      assert j - 1 < |s[1..]| ==> s[1..][j - 1] == s[j];
      SpaceIndexAt(s[1..], j - 1);
    }
  }

  /** When `p` has no space, `p` is the first piece of `p + " " + u`. */
  lemma SplitFirst(p: string, u: string)
    requires NoSpace(p)
    ensures Split(p + " " + u) == [p] + Split(u)
  {
    var s := p + " " + u;
    assert s[..|p|] == p && s[|p|] == ' ' && s[|p| + 1..] == u;
    SpaceIndexAt(s, |p|);
  }

  /** One more piece than there are spaces. */
  lemma {:induction false} SplitCount(s: string)
    ensures |Split(s)| == Occurrences(s, ' ') + 1
    decreases |s|
  {
    var i := SpaceIndex(s);
    assert multiset(s[..i])[' '] == 0 by {
      assert NoSpace(s[..i]);
    }
    if i < |s| {
      SplitCount(s[i + 1..]);
      assert s == s[..i] + " " + s[i + 1..];
      assert multiset(s) == multiset(s[..i]) + multiset(" ") + multiset(s[i + 1..]);
    } else {
      assert s[..i] == s;
    }
  }

  /** No piece contains the separator. */
  lemma {:induction false} SplitPieces(s: string)
    ensures forall k :: 0 <= k < |Split(s)| ==> NoSpace(Split(s)[k])
    decreases |s|
  {
    var i := SpaceIndex(s);
    if i < |s| {
      SplitPieces(s[i + 1..]);
    } else {
      assert s[..i] == s;
    }
  }

  /** `' '.join(parts)`: the reference that `Split` inverts. */
  function Join(parts: seq<string>): string
    requires |parts| >= 1
    decreases |parts|
  {
    if |parts| == 1 then parts[0] else parts[0] + " " + Join(parts[1..])
  }

  /** Joining the pieces with single spaces gives back the original string. */
  lemma {:induction false} JoinSplit(s: string)
    ensures Join(Split(s)) == s
    decreases |s|
  {
    var i := SpaceIndex(s);
    if i < |s| {
      var parts := Split(s);
      JoinSplit(s[i + 1..]);
      assert parts[1..] == Split(s[i + 1..]);
      assert s == s[..i] + " " + s[i + 1..];
    }
  }

  /** Splitting undoes joining, provided no piece contains the separator. */
  lemma {:induction false} SplitJoin(parts: seq<string>)
    requires |parts| >= 1
    requires forall k :: 0 <= k < |parts| ==> NoSpace(parts[k])
    ensures Split(Join(parts)) == parts
    decreases |parts|
  {
    if |parts| == 1 {
      SpaceIndexAt(parts[0], |parts[0]|);
      assert parts[0][..|parts[0]|] == parts[0];
    } else {
      SplitJoin(parts[1..]);
      SplitFirst(parts[0], Join(parts[1..]));
      assert [parts[0]] + parts[1..] == parts;
    }
  }

  /** A leading space yields an empty first piece. */
  lemma SplitLeadingSpace(u: string)
    ensures Split(" " + u) == [""] + Split(u)
  {
    assert " " + u == "" + " " + u;
    SplitFirst("", u);
  }

  /** Two spaces are one space followed by another. */
  lemma TwoSpaces(p: string, u: string)
    ensures p + "  " + u == p + " " + (" " + u)
  {
  }

  /** Two spaces in a row yield an empty piece: after a first piece `p`,
      the pieces of `u` start at index 2 instead of index 1. */
  lemma DoubleSpace(p: string, u: string)
    requires NoSpace(p)
    ensures Split(p + " " + u) == [p] + Split(u)
    ensures Split(p + "  " + u) == [p, ""] + Split(u)
  {
    SplitFirst(p, u);
    TwoSpaces(p, u);
    SplitFirst(p, " " + u);
    SplitLeadingSpace(u);
  }
  /** A non-empty token with no whitespace in it. */
  predicate Word(t: string) {
    |t| > 0 && forall k :: 0 <= k < |t| ==> !IsWhitespace(t[k])
  }

  /** A string that starts and ends with non-whitespace loses only a
      trailing newline to `strip`. */
  lemma StripNewline(s: string)
    requires |s| > 0 && !IsWhitespace(s[0]) && !IsWhitespace(s[|s| - 1])
    ensures Strip(s) == s
    ensures Strip(s + "\n") == s
  {
    var t := s + "\n";
    assert TrimStart(t) == t;
    assert t[..|t| - 1] == s;
  }

  /** The joined string starts with the first piece's first character. */
  lemma JoinFirst(parts: seq<string>)
    requires |parts| >= 1 && parts[0] != []
    ensures |Join(parts)| > 0 && Join(parts)[0] == parts[0][0]
  {
  }

  /** The joined string ends with the last piece's last character. */
  lemma {:induction false} JoinLast(parts: seq<string>)
    requires |parts| >= 1 && parts[|parts| - 1] != []
    ensures var s, w := Join(parts), parts[|parts| - 1];
      |s| > 0 && s[|s| - 1] == w[|w| - 1]
    decreases |parts|
  {
    if |parts| > 1 {
      var rest := parts[1..];
      assert rest[|rest| - 1] == parts[|parts| - 1];
      JoinLast(rest);
    }
  }

  /** Every piece contains no space. */
  lemma WordsNoSpace(parts: seq<string>)
    requires forall k :: 0 <= k < |parts| ==> Word(parts[k])
    ensures forall k :: 0 <= k < |parts| ==> NoSpace(parts[k])
  {
    forall k | 0 <= k < |parts| ensures NoSpace(parts[k]) {
      assert Word(parts[k]);
    }
  }

  /** Space-joining words gives a string that `strip` leaves alone and that
      `split(' ')` cuts back into the same words. */
  lemma JoinWords(parts: seq<string>)
    requires |parts| >= 1
    requires forall k :: 0 <= k < |parts| ==> Word(parts[k])
    ensures Strip(Join(parts)) == Join(parts)
    ensures Strip(Join(parts) + "\n") == Join(parts)
    ensures Split(Join(parts)) == parts
  {
    var s := Join(parts);
    assert Word(parts[0]) && Word(parts[|parts| - 1]);
    JoinFirst(parts);
    JoinLast(parts);
    assert !IsWhitespace(s[0]) && !IsWhitespace(s[|s| - 1]);
    StripNewline(s);
    WordsNoSpace(parts);
    SplitJoin(parts);
  }
}
