/**
 * The string primitives the calculator leans on, as Python defines them:
 * `str.strip()`, `str.lower()`, `str.split()` with no separator, and `sep.join(parts)`.
 */
module Text {

  /** The characters Python's `str.isspace()` accepts; `strip()` and `split()` cut on exactly these. */
  predicate IsSpace(c: char)
  {
    var n := c as int;
    n == 0x20 || 0x09 <= n <= 0x0D || 0x1C <= n <= 0x1F || n == 0x85 || n == 0xA0
    || n == 0x1680 || 0x2000 <= n <= 0x200A || n == 0x2028 || n == 0x2029
    || n == 0x202F || n == 0x205F || n == 0x3000
  }

  predicate AllSpace(s: string)
  {
    forall i :: 0 <= i < |s| ==> IsSpace(s[i])
  }

  predicate NoSpace(s: string)
  {
    forall i :: 0 <= i < |s| ==> !IsSpace(s[i])
  }

  /** Neither starts nor ends with whitespace: the shape of every `strip()` result. */
  predicate Trimmed(s: string)
  {
    s == [] || (!IsSpace(s[0]) && !IsSpace(s[|s| - 1]))
  }

  /** The number of whitespace characters that open `s`. */
  function LeadingSpaces(s: string): (n: nat)
    ensures n <= |s| && AllSpace(s[..n])
    ensures n < |s| ==> !IsSpace(s[n])
  {
    if s != [] && IsSpace(s[0]) then 1 + LeadingSpaces(s[1..]) else 0
  }

  /** The number of whitespace characters that close `s`. */
  function TrailingSpaces(s: string): (n: nat)
    ensures n <= |s| && AllSpace(s[|s| - n..])
    ensures n < |s| ==> !IsSpace(s[|s| - 1 - n])
  {
    if s != [] && IsSpace(s[|s| - 1]) then 1 + TrailingSpaces(s[..|s| - 1]) else 0
  }

  /** `s.strip()`. */
  function Strip(s: string): (r: string)
    ensures Trimmed(r)
  {
    var i := LeadingSpaces(s);
    var t := s[i..];
    t[..|t| - TrailingSpaces(t)]
  }

  /** Whitespace put in front of `x` adds exactly its own length to the leading run. */
  lemma {:induction false} LeadingSpacesPrefix(p: string, x: string)
    requires AllSpace(p)
    ensures LeadingSpaces(p + x) == |p| + LeadingSpaces(x)
    decreases |p|
  {
    if p == [] {
      assert p + x == x;
    } else {
      assert (p + x)[0] == p[0];
      assert (p + x)[1..] == p[1..] + x;
      LeadingSpacesPrefix(p[1..], x);
    }
  }

  /** Whitespace put after `x` adds exactly its own length to the trailing run. */
  lemma {:induction false} TrailingSpacesSuffix(x: string, q: string)
    requires AllSpace(q)
    ensures TrailingSpaces(x + q) == TrailingSpaces(x) + |q|
    decreases |q|
  {
    if q == [] {
      assert x + q == x;
    } else {
      var s := x + q;
      assert s[|s| - 1] == q[|q| - 1];
      assert s[..|s| - 1] == x + q[..|q| - 1];
      TrailingSpacesSuffix(x, q[..|q| - 1]);
    }
  }

  /**
   * `strip()` is determined by its input's shape: whatever surrounds a trimmed
   * middle with whitespace strips to that middle.
   */
  lemma StripUnique(p: string, m: string, q: string)
    requires AllSpace(p) && AllSpace(q) && Trimmed(m)
    ensures Strip(p + m + q) == m
  {
    var s := p + m + q;
    assert s == p + (m + q);
    LeadingSpacesPrefix(p, m + q);
    if m == [] {
      assert m + q == [] + q;
      LeadingSpacesPrefix(q, []);
      assert q + [] == q;
    } else {
      assert (m + q)[0] == m[0];
      var t := s[|p|..];
      assert t == m + q;
      TrailingSpacesSuffix(m, q);
      assert t[..|m|] == m;
    }
  }

  /** Every string is its stripped self with whitespace around it. */
  lemma StripParts(s: string) returns (p: string, q: string)
    ensures s == p + Strip(s) + q
    ensures AllSpace(p) && AllSpace(q)
  {
    var i := LeadingSpaces(s);
    var t := s[i..];
    var k := TrailingSpaces(t);
    p, q := s[..i], t[|t| - k..];
    CutThree(s, i, k);
  }

  /** Cutting a prefix and then a suffix leaves a middle that puts the pieces back together. */
  lemma CutThree<T>(s: seq<T>, i: nat, k: nat)
    requires i <= |s| && k <= |s| - i
    ensures s == s[..i] + s[i..][..|s| - i - k] + s[i..][|s| - i - k..]
  {
    var t := s[i..];
    assert t == t[..|t| - k] + t[|t| - k..];
    assert s == s[..i] + t;
  }

  /** Stripping twice is stripping once. */
  lemma StripIdempotent(s: string)
    ensures Strip(Strip(s)) == Strip(s)
  {
    var m := Strip(s);
    assert [] + m + [] == m;
    StripUnique([], m, []);
  }

  /** Extra whitespace on either side never changes what `strip()` returns. */
  lemma StripIgnoresPadding(left: string, s: string, right: string)
    requires AllSpace(left) && AllSpace(right)
    ensures Strip(left + s + right) == Strip(s)
  {
    var p, q := StripParts(s);
    var m := Strip(s);
    Regroup(left, p, m, q, right);
    AllSpaceConcat(left, p);
    AllSpaceConcat(q, right);
    StripUnique(left + p, m, q + right);
  }

  lemma AllSpaceConcat(x: string, y: string)
    requires AllSpace(x) && AllSpace(y)
    ensures AllSpace(x + y)
  {
    forall i | 0 <= i < |x + y| ensures IsSpace((x + y)[i]) {
      if i >= |x| { assert (x + y)[i] == y[i - |x|]; }
    }
  }

  lemma Regroup<T>(l: seq<T>, p: seq<T>, m: seq<T>, q: seq<T>, r: seq<T>)
    ensures l + (p + m + q) + r == (l + p) + m + (q + r)
    ensures p + m + q == p + (m + q)
  {
  }

  /** One character of `str.lower()`; letters outside ASCII are left as they are. */
  function LowerChar(c: char): char
  {
    if 'A' <= c <= 'Z' then (c as int + 32) as char else c
  }

  /** `s.lower()`, character by character. */
  function Lower(s: string): (r: string)
    ensures |r| == |s|
    ensures forall i :: 0 <= i < |s| ==> r[i] == LowerChar(s[i])
  {
    seq(|s|, i requires 0 <= i < |s| => LowerChar(s[i]))
  }

  /** Lower-casing works character by character, so it distributes over concatenation. */
  lemma LowerConcat(x: string, y: string)
    ensures Lower(x + y) == Lower(x) + Lower(y)
  {
  }

  /** Lower-casing never turns whitespace into something else, or anything else into whitespace. */
  lemma LowerKeepsSpaces(x: string)
    ensures AllSpace(x) ==> AllSpace(Lower(x))
    ensures Trimmed(x) ==> Trimmed(Lower(x))
  {
    forall c: char ensures IsSpace(LowerChar(c)) == IsSpace(c) {
    }
  }

  /** Lower-casing twice is lower-casing once. */
  lemma LowerIdempotent(s: string)
    ensures Lower(Lower(s)) == Lower(s)
  {
  }

  /** Lower-casing neither creates nor removes whitespace, so it commutes with `strip()`. */
  lemma StripLowerCommute(s: string)
    ensures Strip(Lower(s)) == Lower(Strip(s))
  {
    var p, q := StripParts(s);
    var m := Strip(s);
    LowerConcat(p + m, q);
    LowerConcat(p, m);
    LowerKeepsSpaces(p);
    LowerKeepsSpaces(m);
    LowerKeepsSpaces(q);
    StripUnique(Lower(p), Lower(m), Lower(q));
  }

  /** The normal form under which names and flags are compared: `s.strip().lower()`. */
  function Normalize(s: string): string
  {
    Lower(Strip(s))
  }

  /** A word with no whitespace and no upper-case ASCII letter is its own normal form. */
  lemma NormalWord(w: string)
    requires NoSpace(w)
    requires forall i :: 0 <= i < |w| ==> !('A' <= w[i] <= 'Z')
    ensures Normalize(w) == w
  {
    assert Strip(w) == w by {
      assert [] + w + [] == w;
      StripUnique([], w, []);
    }
    assert Lower(w) == w;
  }

  /** Normalising a normalised string changes nothing. */
  lemma NormalizeIdempotent(s: string)
    ensures Normalize(Normalize(s)) == Normalize(s)
  {
    StripLowerCommute(Strip(s));
    StripIdempotent(s);
    LowerIdempotent(Strip(s));
  }

  /** The length of the run of non-whitespace characters that opens `s`. */
  function WordLength(s: string): (n: nat)
    ensures n <= |s| && NoSpace(s[..n])
    ensures n < |s| ==> IsSpace(s[n])
    ensures s != [] && !IsSpace(s[0]) ==> n > 0
  {
    if s != [] && !IsSpace(s[0]) then 1 + WordLength(s[1..]) else 0
  }

  /** `s.split()`: the maximal runs of non-whitespace characters, in order. */
  function Split(s: string): (words: seq<string>)
    ensures forall i :: 0 <= i < |words| ==> words[i] != [] && NoSpace(words[i])
    decreases |s|
  {
    if s == [] then []
    else if IsSpace(s[0]) then Split(s[1..])
    else
      var n := WordLength(s);
      [s[..n]] + Split(s[n..])
  }

  /** `sep.join(parts)`. */
  function Join(parts: seq<string>, sep: string): string
  {
    if parts == [] then ""
    else if |parts| == 1 then parts[0]
    else parts[0] + sep + Join(parts[1..], sep)
  }

  /** A run of `n` non-whitespace characters ended by whitespace or the end has length `n`. */
  lemma {:induction false} WordLengthExact(s: string, n: nat)
    requires n <= |s| && NoSpace(s[..n]) && (n == |s| || IsSpace(s[n]))
    ensures WordLength(s) == n
    decreases n
  {
    if n > 0 {
      assert s[..n][0] == s[0];
      assert s[1..][..n - 1] == s[..n][1..];
      WordLengthExact(s[1..], n - 1);
    }
  }

  /** Whitespace before the text never produces a word. */
  lemma {:induction false} SplitLeadingSpace(ws: string, s: string)
    requires AllSpace(ws)
    ensures Split(ws + s) == Split(s)
    decreases |ws|
  {
    if ws == [] {
      assert ws + s == s;
    } else {
      assert (ws + s)[0] == ws[0];
      assert (ws + s)[1..] == ws[1..] + s;
      SplitLeadingSpace(ws[1..], s);
    }
  }

  /** A word followed by whitespace (or nothing) is split off whole. */
  lemma SplitWord(w: string, x: string)
    requires w != [] && NoSpace(w)
    requires x == [] || IsSpace(x[0])
    ensures Split(w + x) == [w] + Split(x)
  {
    var s := w + x;
    assert s[..|w|] == w;
    assert |w| < |s| ==> s[|w|] == x[0];
    WordLengthExact(s, |w|);
    assert s[0] == w[0];
    assert s[|w|..] == x;
  }

  /** Whitespace after the text never produces a word. */
  lemma {:induction false} SplitTrailingSpace(s: string, ws: string)
    requires AllSpace(ws)
    ensures Split(s + ws) == Split(s)
    decreases |s|
  {
    if s == [] {
      SplitLeadingSpace(ws, []);
      assert ws + [] == ws;
      assert [] + ws == ws;
    } else if IsSpace(s[0]) {
      assert (s + ws)[0] == s[0];
      assert (s + ws)[1..] == s[1..] + ws;
      SplitTrailingSpace(s[1..], ws);
    } else {
      var n := WordLength(s);
      assert (s + ws)[0] == s[0];
      assert (s + ws)[..n] == s[..n];
      assert n < |s| + |ws| ==> IsSpace((s + ws)[n]);
      WordLengthExact(s + ws, n);
      assert (s + ws)[n..] == s[n..] + ws;
      SplitTrailingSpace(s[n..], ws);
    }
  }

  /** Splitting the stripped text gives the same words as splitting the raw text. */
  lemma SplitStrip(s: string)
    ensures Split(Strip(s)) == Split(s)
  {
    var p, q := StripParts(s);
    var m := Strip(s);
    Regroup([], p, m, q, []);
    SplitLeadingSpace(p, m + q);
    SplitTrailingSpace(m, q);
  }

  /** Words joined with single spaces split back into the same words. */
  lemma {:induction false} SplitJoin(words: seq<string>)
    requires forall i :: 0 <= i < |words| ==> words[i] != [] && NoSpace(words[i])
    ensures Split(Join(words, " ")) == words
  {
    if |words| == 1 {
      SplitWord(words[0], []);
      assert words[0] + [] == words[0];
    } else if |words| > 1 {
      var rest := Join(words[1..], " ");
      assert Join(words, " ") == words[0] + (" " + rest);
      SplitWord(words[0], " " + rest);
      SplitLeadingSpace(" ", rest);
      SplitJoin(words[1..]);
      assert [words[0]] + words[1..] == words;
    }
  }

  /** Three words with single spaces between them split back into those words. */
  lemma SplitThreeWords(op: string, x: string, y: string)
    requires op != [] && NoSpace(op) && x != [] && NoSpace(x) && y != [] && NoSpace(y)
    ensures Split(op + " " + x + " " + y) == [op, x, y]
  {
    var words := [op, x, y];
    assert Join(words, " ") == op + " " + x + " " + y by {
      assert words[1..] == [x, y] && words[2..] == [y];
      assert Join([y], " ") == y;
      assert Join([x, y], " ") == x + " " + y;
    }
    assert forall i :: 0 <= i < |words| ==> words[i] != [] && NoSpace(words[i]) by {
      assert words[0] == op && words[1] == x && words[2] == y;
    }
    SplitJoin(words);
  }

  /** Three words with single spaces between them are already stripped. */
  lemma StripThreeWords(op: string, x: string, y: string)
    requires op != [] && NoSpace(op) && y != [] && NoSpace(y)
    ensures Strip(op + " " + x + " " + y) == op + " " + x + " " + y
  {
    var line := op + " " + x + " " + y;
    assert Trimmed(line) by {
      assert line[0] == op[0];
      assert line[|line| - 1] == y[|y| - 1];
    }
    assert [] + line + [] == line;
    StripUnique([], line, []);
  }
}
